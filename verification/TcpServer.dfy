/** The TCP server of internal/modbus/server.go: its register tables, request handler,
    connection handler and the setters the simulators write through. */
module TcpServer {
  import opened Bytes
  import Codec
  import opened Packing
  import opened Engine
  import opened EngineLaws
  import opened Loops
  import opened TcpStream
  import opened Wire
  import opened Options

  datatype Fault = OutOfRange | InvalidQty | InvalidPduLen | InvalidValue | InvalidByteCount

  datatype Result<T> = Ok(value: T) | Err(fault: Fault)

  function FaultCode(f: Fault): byte {
    match f
    case OutOfRange => ILLEGAL_ADDRESS
    case InvalidQty => ILLEGAL_VALUE
    case InvalidPduLen => ILLEGAL_VALUE
    case InvalidValue => ILLEGAL_VALUE
    case InvalidByteCount => ILLEGAL_VALUE
  }

  class Server {
    const holdingRegisters: array<word>
    const inputRegisters: array<word>
    const coils: array<bool>
    const discreteInputs: array<bool>

    ghost predicate Valid() {
      && coils.Length == discreteInputs.Length == holdingRegisters.Length == inputRegisters.Length == SIZE
      && coils != discreteInputs
      && holdingRegisters != inputRegisters
    }

    ghost function View(): Store
      reads coils, discreteInputs, holdingRegisters, inputRegisters
      requires Valid()
    {
      Image(coils[..], discreteInputs[..], holdingRegisters[..], inputRegisters[..])
    }

    constructor ()
      ensures Valid() && fresh(coils) && fresh(discreteInputs) && fresh(holdingRegisters) && fresh(inputRegisters)
      ensures View() == Image(seq(SIZE, _ => false), seq(SIZE, _ => false), seq(SIZE, _ => 0), seq(SIZE, _ => 0))
    {
      holdingRegisters := new word[SIZE](_ => 0);
      inputRegisters := new word[SIZE](_ => 0);
      coils := new bool[SIZE](_ => false);
      discreteInputs := new bool[SIZE](_ => false);
    }

    // -------------------------------------------------------------------------
    // Requests
    // -------------------------------------------------------------------------

    method ReadBits(source: array<bool>, pdu: seq<byte>) returns (r: Result<seq<byte>>)
      ensures r == if |pdu| < 5 then Err(InvalidPduLen)
                   else if !(0 < Count(pdu) <= 2000) then Err(InvalidQty)
                   else if Start(pdu) + Count(pdu) > source.Length then Err(OutOfRange)
                   else Ok(Pack(source[Start(pdu)..Start(pdu) + Count(pdu)]))
    {
      hide WordOf, Pack;
      if |pdu| < 5 {
        return Err(InvalidPduLen);
      }
      var start, quantity := WordOf(pdu[1], pdu[2]), WordOf(pdu[3], pdu[4]);
      if quantity == 0 || quantity > 2000 {
        return Err(InvalidQty);
      }
      if start + quantity > source.Length {
        return Err(OutOfRange);
      }
      var result := PackedBits(source, start, quantity);
      return Ok(result[..]);
    }

    method ReadRegisters(source: array<word>, pdu: seq<byte>) returns (r: Result<seq<byte>>)
      ensures r == if |pdu| < 5 then Err(InvalidPduLen)
                   else if !(0 < Count(pdu) <= 125) then Err(InvalidQty)
                   else if Start(pdu) + Count(pdu) > source.Length then Err(OutOfRange)
                   else Ok(WordBytes(source[Start(pdu)..Start(pdu) + Count(pdu)]))
    {
      hide WordOf, WordBytes;
      if |pdu| < 5 {
        return Err(InvalidPduLen);
      }
      var start, quantity := WordOf(pdu[1], pdu[2]), WordOf(pdu[3], pdu[4]);
      if quantity == 0 || quantity > 125 {
        return Err(InvalidQty);
      }
      if start + quantity > source.Length {
        return Err(OutOfRange);
      }
      var result := BigEndianWords(source, start, quantity);
      return Ok(result[..]);
    }

    method WriteSingleCoil(pdu: seq<byte>) returns (r: Result<seq<byte>>)
      requires Valid() && pdu != [] && pdu[0] == 0x05
      modifies coils
      ensures Obeys(old(View()), pdu, r, View())
    {
      hide WordOf, Overwrite;
      if |pdu| != 5 {
        return Err(InvalidPduLen);
      }
      var address, value := WordOf(pdu[1], pdu[2]), WordOf(pdu[3], pdu[4]);
      if value != 0xFF00 && value != 0x0000 {
        return Err(InvalidValue);
      }
      if address >= coils.Length {
        return Err(OutOfRange);
      }
      SetAt(coils[..], address, value == 0xFF00);
      coils[address] := value == 0xFF00;
      return Ok([0x05, pdu[1], pdu[2], pdu[3], pdu[4]]);
    }

    method WriteSingleRegister(pdu: seq<byte>) returns (r: Result<seq<byte>>)
      requires Valid() && pdu != [] && pdu[0] == 0x06
      modifies holdingRegisters
      ensures Obeys(old(View()), pdu, r, View())
    {
      hide WordOf, Overwrite;
      if |pdu| != 5 {
        return Err(InvalidPduLen);
      }
      var address, value := WordOf(pdu[1], pdu[2]), WordOf(pdu[3], pdu[4]);
      if address >= holdingRegisters.Length {
        return Err(OutOfRange);
      }
      SetAt(holdingRegisters[..], address, value);
      holdingRegisters[address] := value;
      return Ok([0x06, pdu[1], pdu[2], pdu[3], pdu[4]]);
    }

    method WriteMultipleCoils(pdu: seq<byte>) returns (r: Result<seq<byte>>)
      requires Valid() && pdu != [] && pdu[0] == 0x0F
      modifies coils
      ensures Obeys(old(View()), pdu, r, View())
    {
      hide WordOf, Overwrite, Unpack;
      if |pdu| < 6 {
        return Err(InvalidPduLen);
      }
      var start, quantity := WordOf(pdu[1], pdu[2]), WordOf(pdu[3], pdu[4]);
      if quantity == 0 || quantity > 1968 {
        return Err(InvalidQty);
      }
      var byteCount := ByteCount(pdu);
      var expected := (quantity + 7) / 8;
      if byteCount != expected {
        return Err(InvalidByteCount);
      }
      if |pdu| != 6 + byteCount {
        return Err(InvalidPduLen);
      }
      if start + quantity > coils.Length {
        return Err(OutOfRange);
      }
      var done := StoreBits(coils, start, quantity, pdu[6..]);
      return Ok([0x0F, pdu[1], pdu[2], pdu[3], pdu[4]]);
    }

    method WriteMultipleRegisters(pdu: seq<byte>) returns (r: Result<seq<byte>>)
      requires Valid() && pdu != [] && pdu[0] == 0x10
      modifies holdingRegisters
      ensures Obeys(old(View()), pdu, r, View())
    {
      hide WordOf, Overwrite, BytesWords;
      if |pdu| < 6 {
        return Err(InvalidPduLen);
      }
      var start, quantity := WordOf(pdu[1], pdu[2]), WordOf(pdu[3], pdu[4]);
      if quantity == 0 || quantity > 123 {
        return Err(InvalidQty);
      }
      var byteCount := ByteCount(pdu);
      if byteCount != quantity * 2 {
        return Err(InvalidByteCount);
      }
      if |pdu| != 6 + byteCount {
        return Err(InvalidPduLen);
      }
      if start + quantity > holdingRegisters.Length {
        return Err(OutOfRange);
      }
      StoreWords(holdingRegisters, start, quantity, pdu[6..]);
      return Ok([0x10, pdu[1], pdu[2], pdu[3], pdu[4]]);
    }

    method HandlePdu(pdu: seq<byte>) returns (response: seq<byte>)
      requires Valid()
      modifies coils, holdingRegisters
      ensures Handled(response, View()) == HandleTcp(old(View()), pdu)
    {
      hide WordOf, Overwrite, Unpack, BytesWords, Pack, WordBytes;
      if |pdu| == 0 {
        return Exception(0, ILLEGAL_FUNCTION);
      }
      var function_ := pdu[0];
      if function_ == 0x01 || function_ == 0x02 {
        response := HandleBitRead(pdu);
      } else if function_ == 0x03 || function_ == 0x04 {
        response := HandleWordRead(pdu);
      } else if IsWrite(function_) {
        var r;
        if function_ == 0x05 {
          r := WriteSingleCoil(pdu);
        } else if function_ == 0x06 {
          r := WriteSingleRegister(pdu);
        } else if function_ == 0x0F {
          r := WriteMultipleCoils(pdu);
        } else {
          r := WriteMultipleRegisters(pdu);
        }
        response := if r.Err? then Exception(function_, FaultCode(r.fault)) else r.value;
      } else {
        return Exception(function_, ILLEGAL_FUNCTION);
      }
    }

    method HandleBitRead(pdu: seq<byte>) returns (response: seq<byte>)
      requires Valid() && pdu != [] && (pdu[0] == 0x01 || pdu[0] == 0x02)
      ensures Handled(response, View()) == HandleTcp(View(), pdu)
    {
      hide WordOf, Pack;
      var r := ReadBits(if pdu[0] == 0x01 then coils else discreteInputs, pdu);
      if r.Err? {
        return Exception(pdu[0], FaultCode(r.fault));
      }
      return [pdu[0], |r.value|] + r.value;
    }

    method HandleWordRead(pdu: seq<byte>) returns (response: seq<byte>)
      requires Valid() && pdu != [] && (pdu[0] == 0x03 || pdu[0] == 0x04)
      ensures Handled(response, View()) == HandleTcp(View(), pdu)
    {
      hide WordOf, WordBytes;
      var r := ReadRegisters(if pdu[0] == 0x03 then holdingRegisters else inputRegisters, pdu);
      if r.Err? {
        return Exception(pdu[0], FaultCode(r.fault));
      }
      return [pdu[0], |r.value|] + r.value;
    }

    /** Rewrites the header in place and sends it, then the response. */
    method Respond(conn: Conn, header: array<byte>, unitId: byte, response: seq<byte>)
      requires header.Length == 7 && header[6] == unitId && |response| + 1 < 0x1_0000
      modifies conn`sent, header
      ensures conn.sent == old(conn.sent) + ReplyHeader(old(header[..]), response) + response
    {
      hide BigEndian;
      ghost var before := header[..];
      var size := BigEndian(|response| + 1);
      header[2], header[3] := 0, 0;
      header[4], header[5] := size[0], size[1];
      header[6] := unitId;
      HeaderRewritten(before, response, header[..]);
      conn.Write(header[..]);
      conn.Write(response);
    }

    /** Handles one PDU and sends the reply behind the rewritten header. */
    method AnswerPdu(conn: Conn, header: array<byte>, pdu: seq<byte>)
      requires Valid() && header.Length == 7
      modifies conn`sent, header, coils, holdingRegisters
      ensures var h := HandleTcp(old(View()), pdu);
              && 0 < |h.reply| && |h.reply| + 1 < 0x1_0000
              && conn.sent == old(conn.sent) + ReplyHeader(old(header[..]), h.reply) + h.reply
              && View() == h.store
    {
      hide HandleTcp, ReplyHeader;
      ghost var t := View();
      var unitId := header[6];
      var response := HandlePdu(pdu);
      TcpLawful(t, pdu);
      if |response| == 0 {
        return;
      }
      Respond(conn, header, unitId, response);
    }

    /** `handleConnection`, until the input runs out. */
    method HandleConnection(conn: Conn)
      requires Valid() && conn.Valid()
      modifies conn, coils, holdingRegisters
      ensures conn.Valid()
      ensures var s := ServeTcp(old(View()), old(conn.Rest()));
              conn.sent == old(conn.sent) + s.output && View() == s.store
    {
      hide ServeTcp, HandleTcp, WordOf, ReplyHeader;
      var header := new byte[7];
      ghost var whole := ServeTcp(View(), conn.Rest());
      ghost var answered: seq<byte> := [];
      while true
        invariant conn.Valid() && header.Length == 7 && fresh(header)
        invariant conn.sent == old(conn.sent) + answered
        invariant var s := ServeTcp(View(), conn.Rest());
                  whole == Session(answered + s.output, s.store)
        decreases |conn.Rest()|
      {
        ghost var t, input := View(), conn.Rest();
        ServeStep(t, input);
        var ok := conn.ReadInto(header);
        if !ok {
          return;
        }
        assert input[..7] == header[..];
        var length := WordOf(header[4], header[5]);
        if length == 0 {
          continue;
        }
        var pduLength := length - 1;
        if pduLength <= 0 {
          continue;
        }
        var pdu;
        ok, pdu := conn.ReadFull(pduLength);
        if !ok {
          return;
        }
        assert pdu == input[HEADER..HEADER + pduLength];
        assert conn.Rest() == input[HEADER + pduLength..];
        AnswerPdu(conn, header, pdu);
        ghost var reply := HandleTcp(t, pdu).reply;
        HeaderPrefix(input, reply);
        Concat4(answered, ReplyHeader(input, reply), reply, ServeTcp(View(), conn.Rest()).output);
        answered := answered + ReplyHeader(input, reply) + reply;
      }
    }

    // -------------------------------------------------------------------------
    // The setters of the simulators
    // -------------------------------------------------------------------------

    method SetHoldingRegister(address: word, value: word) returns (ok: bool)
      requires Valid()
      modifies holdingRegisters
      ensures ok && View() == old(View()).(holding := old(View()).holding[address := value])
    {
      if address >= holdingRegisters.Length {
        return false;
      }
      holdingRegisters[address] := value;
      return true;
    }

    method SetInputRegister(address: word, value: word) returns (ok: bool)
      requires Valid()
      modifies inputRegisters
      ensures ok && View() == old(View()).(inputs := old(View()).inputs[address := value])
    {
      if address >= inputRegisters.Length {
        return false;
      }
      inputRegisters[address] := value;
      return true;
    }

    method SetCoil(address: word, value: bool) returns (ok: bool)
      requires Valid()
      modifies coils
      ensures ok && View() == old(View()).(coils := old(View()).coils[address := value])
    {
      if address >= coils.Length {
        return false;
      }
      coils[address] := value;
      return true;
    }

    method SetDiscreteInput(address: word, value: bool) returns (ok: bool)
      requires Valid()
      modifies discreteInputs
      ensures ok && View() == old(View()).(discretes := old(View()).discretes[address := value])
    {
      if address >= discreteInputs.Length {
        return false;
      }
      discreteInputs[address] := value;
      return true;
    }

    // -------------------------------------------------------------------------
    // 32-bit values in two registers, under one lock
    // -------------------------------------------------------------------------

    method SetHoldingFloat32(address: word, bits: Codec.pattern) returns (ok: bool)
      requires Valid()
      modifies holdingRegisters
      ensures ok <==> address + 1 < SIZE
      ensures View() == if ok then old(View()).(holding := old(View()).holding[address := Codec.HighWord(bits)][address + 1 := Codec.LowWord(bits)])
                        else old(View())
    {
      if address + 1 >= holdingRegisters.Length {
        return false;
      }
      holdingRegisters[address] := Codec.HighWord(bits);
      holdingRegisters[address + 1] := Codec.LowWord(bits);
      return true;
    }

    method HoldingFloat32(address: word) returns (r: Option<Codec.pattern>)
      requires Valid()
      ensures r.Some? <==> address + 1 < SIZE
      ensures r.Some? ==> Codec.HighWord(r.value) == View().holding[address] && Codec.LowWord(r.value) == View().holding[address + 1]
    {
      if address + 1 >= holdingRegisters.Length {
        return None;
      }
      var hi: nat, lo: nat := holdingRegisters[address], holdingRegisters[address + 1];
      return Some(hi * 0x1_0000 + lo);
    }

    method SetInputFloat32(address: word, bits: Codec.pattern) returns (ok: bool)
      requires Valid()
      modifies inputRegisters
      ensures ok <==> address + 1 < SIZE
      ensures View() == if ok then old(View()).(inputs := old(View()).inputs[address := Codec.HighWord(bits)][address + 1 := Codec.LowWord(bits)])
                        else old(View())
    {
      if address + 1 >= inputRegisters.Length {
        return false;
      }
      inputRegisters[address] := Codec.HighWord(bits);
      inputRegisters[address + 1] := Codec.LowWord(bits);
      return true;
    }

    method InputFloat32(address: word) returns (r: Option<Codec.pattern>)
      requires Valid()
      ensures r.Some? <==> address + 1 < SIZE
      ensures r.Some? ==> Codec.HighWord(r.value) == View().inputs[address] && Codec.LowWord(r.value) == View().inputs[address + 1]
    {
      if address + 1 >= inputRegisters.Length {
        return None;
      }
      var hi: nat, lo: nat := inputRegisters[address], inputRegisters[address + 1];
      return Some(hi * 0x1_0000 + lo);
    }
  }

  /** A handler's result and effect are those of the engine. */
  ghost predicate Obeys(t: Store, pdu: seq<byte>, r: Result<seq<byte>>, t': Store)
    requires pdu != []
  {
    HandleTcp(t, pdu) == Handled(if r.Err? then Exception(pdu[0], FaultCode(r.fault)) else r.value, t')
  }

  lemma SetAt<T>(s: seq<T>, a: nat, v: T)
    requires a < |s|
    ensures s[a := v] == Overwrite(s, a, [v])
  {
  }

  /** What the octets at the head of the input lead to. */
  lemma ServeStep(t: Store, input: seq<byte>)
    ensures ServeTcp(t, input) ==
            if |input| < HEADER then Session([], t)
            else if LengthField(input) <= 1 then ServeTcp(t, input[HEADER..])
            else if |input| < HEADER + LengthField(input) - 1 then Session([], t)
            else (
              TcpLawful(t, input[HEADER..HEADER + LengthField(input) - 1]);
              var h := HandleTcp(t, input[HEADER..HEADER + LengthField(input) - 1]);
              var s := ServeTcp(h.store, input[HEADER + LengthField(input) - 1..]);
              Session(ReplyHeader(input, h.reply) + h.reply + s.output, s.store))
  {
    hide HandleTcp, WordOf, ReplyHeader;
  }

  lemma HeaderRewritten(input: seq<byte>, reply: seq<byte>, header: seq<byte>)
    requires |input| >= HEADER && |header| == HEADER && |reply| + 1 < 0x1_0000
    requires header[..2] == input[..2] && header[2] == header[3] == 0 && header[6] == input[6]
    requires [header[4], header[5]] == BigEndian(|reply| + 1)
    ensures header == ReplyHeader(input, reply)
  {
    hide BigEndian;
  }

  lemma HeaderPrefix(input: seq<byte>, reply: seq<byte>)
    requires |input| >= HEADER && |reply| + 1 < 0x1_0000
    ensures ReplyHeader(input, reply) == ReplyHeader(input[..HEADER], reply)
  {
    hide BigEndian;
  }

  lemma Concat4(a: seq<byte>, b: seq<byte>, c: seq<byte>, d: seq<byte>)
    ensures a + (b + c + d) == a + b + c + d
  {
  }
}
