/** The serial slave: the register store, the request handler and the stream handler. */
module RtuServer {
  import opened Bytes
  import opened Packing
  import opened Crc16
  import opened Detection
  import opened Engine
  import opened EngineLaws
  import opened RtuStream
  import opened Loops
  import opened Wire

  /** How a write helper ends: stored, refused with a Go error, or a Go panic. */
  datatype Written = Stored | Rejected | Panic

  datatype ReadResult = Data(octets: seq<byte>) | Invalid

  class RegisterStore {
    const coils: array<bool>
    const discreteInputs: array<bool>
    const holding: array<word>
    const input: array<word>

    ghost predicate Valid() {
      && coils.Length == discreteInputs.Length == holding.Length == input.Length == SIZE
      && coils != discreteInputs
      && holding != input
    }

    ghost function View(): Store
      reads coils, discreteInputs, holding, input
      requires Valid()
    {
      Image(coils[..], discreteInputs[..], holding[..], input[..])
    }

    constructor ()
      ensures Valid() && fresh(coils) && fresh(discreteInputs) && fresh(holding) && fresh(input)
      ensures View() == Image(seq(SIZE, _ => false), seq(SIZE, _ => false), seq(SIZE, _ => 0), seq(SIZE, _ => 0))
    {
      coils := new bool[SIZE](_ => false);
      discreteInputs := new bool[SIZE](_ => false);
      holding := new word[SIZE](_ => 0);
      input := new word[SIZE](_ => 0);
    }

    method ReadBits(src: array<bool>, start: word, qty: word) returns (r: ReadResult)
      ensures r == if 0 < qty <= 2000 && start + qty <= src.Length then Data(Pack(src[start..start + qty])) else Invalid
    {
      if qty == 0 || qty > 2000 {
        return Invalid;
      }
      if start + qty > src.Length {
        return Invalid;
      }
      var res := PackedBits(src, start, qty);
      return Data(res[..]);
    }

    method ReadRegs(src: array<word>, start: word, qty: word) returns (r: ReadResult)
      ensures r == if 0 < qty <= 125 && start + qty <= src.Length then Data(WordBytes(src[start..start + qty])) else Invalid
    {
      if qty == 0 || qty > 125 {
        return Invalid;
      }
      if start + qty > src.Length {
        return Invalid;
      }
      var res := BigEndianWords(src, start, qty);
      return Data(res[..]);
    }

    method WriteSingleCoil(dst: array<bool>, addr: word, value: word) returns (w: Written)
      modifies dst
      ensures w == if addr < dst.Length && (value == COIL_ON || value == COIL_OFF) then Stored else Rejected
      ensures dst[..] == if w == Stored then Overwrite(old(dst[..]), addr, [value == COIL_ON]) else old(dst[..])
    {
      if addr >= dst.Length {
        return Rejected;
      }
      if value != 0xFF00 && value != 0x0000 {
        return Rejected;
      }
      dst[addr] := value == 0xFF00;
      return Stored;
    }

    method WriteSingleReg(dst: array<word>, addr: word, value: word) returns (w: Written)
      modifies dst
      ensures w == if addr < dst.Length then Stored else Rejected
      ensures dst[..] == if w == Stored then Overwrite(old(dst[..]), addr, [value]) else old(dst[..])
    {
      if addr >= dst.Length {
        return Rejected;
      }
      dst[addr] := value;
      return Stored;
    }

    method WriteMultipleCoils(dst: array<bool>, start: word, qty: word, payload: seq<byte>) returns (w: Written)
      modifies dst
      ensures w == if !(0 < qty <= 1968 && start + qty <= dst.Length) then Rejected
                   else if qty <= 8 * |payload| then Stored else Panic
      ensures dst[..] == match w
                         case Rejected => old(dst[..])
                         case Stored => Overwrite(old(dst[..]), start, Unpack(payload, qty))
                         case Panic => Overwrite(old(dst[..]), start, Unpack(payload, 8 * |payload|))
    {
      if qty == 0 || qty > 1968 {
        return Rejected;
      }
      if start + qty > dst.Length {
        return Rejected;
      }
      var done := StoreBits(dst, start, qty, payload);
      return if done then Stored else Panic;
    }

    method WriteMultipleRegs(dst: array<word>, start: word, qty: word, payload: seq<byte>) returns (w: Written)
      modifies dst
      ensures w == if 0 < qty <= 123 && |payload| == 2 * qty && start + qty <= dst.Length then Stored else Rejected
      ensures dst[..] == if w == Stored then Overwrite(old(dst[..]), start, BytesWords(payload)) else old(dst[..])
    {
      if qty == 0 || qty > 123 {
        return Rejected;
      }
      if |payload| != qty * 2 {
        return Rejected;
      }
      if start + qty > dst.Length {
        return Rejected;
      }
      StoreWords(dst, start, qty, payload);
      return Stored;
    }

    /** `handleRTUPDU`. */
    method HandlePdu(pdu: seq<byte>) returns (o: Outcome)
      requires Valid()
      modifies coils, holding
      ensures o == HandleRtu(old(View()), pdu).outcome
      ensures View() == HandleRtu(old(View()), pdu).store
    {
      hide Overwrite, WordOf, Unpack, BytesWords, Pack, WordBytes;
      if |pdu| < 1 {
        return Failed;
      }
      var fn := pdu[0];
      var refusal := Exception(fn, 0x02);
      if fn == 0x01 || fn == 0x02 {
        o := HandleBitRead(pdu);
      } else if fn == 0x03 || fn == 0x04 {
        o := HandleWordRead(pdu);
      } else if fn == 0x05 {
        if |pdu| < 5 {
          return Failed;
        }
        var w := WriteSingleCoil(coils, WordOf(pdu[1], pdu[2]), WordOf(pdu[3], pdu[4]));
        return if w == Rejected then Replied(refusal) else Replied([fn] + pdu[1..5]);
      } else if fn == 0x06 {
        if |pdu| < 5 {
          return Failed;
        }
        var w := WriteSingleReg(holding, WordOf(pdu[1], pdu[2]), WordOf(pdu[3], pdu[4]));
        return if w == Rejected then Replied(refusal) else Replied([fn] + pdu[1..5]);
      } else if fn == 0x0F {
        o := HandleCoils(pdu);
      } else if fn == 0x10 {
        o := HandleRegisters(pdu);
      } else {
        return Replied(Exception(fn, 0x01));
      }
    }

    method HandleBitRead(pdu: seq<byte>) returns (o: Outcome)
      requires Valid() && pdu != [] && (pdu[0] == 0x01 || pdu[0] == 0x02)
      ensures Served(o, View()) == HandleRtu(View(), pdu)
    {
      hide WordOf, Pack;
      if |pdu| < 5 {
        return Failed;
      }
      var r := ReadBits(if pdu[0] == 0x01 then coils else discreteInputs, WordOf(pdu[1], pdu[2]), WordOf(pdu[3], pdu[4]));
      if r.Invalid? {
        return Replied(Exception(pdu[0], 0x02));
      }
      return Replied([pdu[0], |r.octets|] + r.octets);
    }

    method HandleWordRead(pdu: seq<byte>) returns (o: Outcome)
      requires Valid() && pdu != [] && (pdu[0] == 0x03 || pdu[0] == 0x04)
      ensures Served(o, View()) == HandleRtu(View(), pdu)
    {
      hide WordOf, WordBytes;
      if |pdu| < 5 {
        return Failed;
      }
      var r := ReadRegs(if pdu[0] == 0x03 then holding else input, WordOf(pdu[1], pdu[2]), WordOf(pdu[3], pdu[4]));
      if r.Invalid? {
        return Replied(Exception(pdu[0], 0x02));
      }
      return Replied([pdu[0], |r.octets|] + r.octets);
    }

    method HandleCoils(pdu: seq<byte>) returns (o: Outcome)
      requires Valid() && pdu != [] && pdu[0] == 0x0F
      modifies coils
      ensures o == HandleRtu(old(View()), pdu).outcome
      ensures View() == HandleRtu(old(View()), pdu).store
    {
      hide Overwrite, WordOf, Unpack, BytesWords, Pack, WordBytes;
      if |pdu| < 6 {
        return Failed;
      }
      var start, qty := WordOf(pdu[1], pdu[2]), WordOf(pdu[3], pdu[4]);
      var bc := ByteCount(pdu);
      if |pdu| != 6 + bc {
        return Failed;
      }
      var w := WriteMultipleCoils(coils, start, qty, pdu[6..]);
      match w {
        case Rejected => return Replied(Exception(0x0F, 0x02));
        case Panic => return Panicked;
        case Stored =>
          EchoedFields(pdu);
          return Replied([0x0F] + BigEndian(start) + BigEndian(qty));
      }
    }

    method HandleRegisters(pdu: seq<byte>) returns (o: Outcome)
      requires Valid() && pdu != [] && pdu[0] == 0x10
      modifies holding
      ensures o == HandleRtu(old(View()), pdu).outcome
      ensures View() == HandleRtu(old(View()), pdu).store
    {
      hide Overwrite, WordOf, Unpack, BytesWords, Pack, WordBytes;
      if |pdu| < 6 {
        return Failed;
      }
      var start, qty := WordOf(pdu[1], pdu[2]), WordOf(pdu[3], pdu[4]);
      var bc := ByteCount(pdu);
      if |pdu| != 6 + bc {
        return Failed;
      }
      var w := WriteMultipleRegs(holding, start, qty, pdu[6..]);
      if w == Rejected {
        return Replied(Exception(0x10, 0x02));
      }
      EchoedFields(pdu);
      return Replied([0x10] + BigEndian(start) + BigEndian(qty));
    }

    /** The tail of both branches of `handleStream`: handle the PDU and send the response frame. */
    method AnswerFrame(rw: Conn, address: byte, pdu: seq<byte>) returns (o: Outcome)
      requires Valid()
      modifies rw`sent, coils, holding
      ensures o == HandleRtu(old(View()), pdu).outcome && View() == HandleRtu(old(View()), pdu).store
      ensures rw.sent == old(rw.sent) + if o.Panicked? then [] else Frame(address, Answer(o))
    {
      hide HandleRtu, Crc, Tail;
      o := HandlePdu(pdu);
      if o.Panicked? {
        return;
      }
      var resp := [address] + Answer(o);
      var crc := Crc16Modbus(resp);
      resp := resp + Tail(crc);
      rw.Write(resp);
    }

    /** `handleStream`: answers frames until the input ends, an unsupported function code ends the
        connection, or a request panics. */
    method HandleStream(rw: Conn, expectSlave: byte) returns (end: End)
      requires Valid() && rw.Valid()
      modifies rw, coils, holding
      ensures rw.Valid()
      ensures var s := ServeRtu(old(View()), expectSlave, old(rw.Rest()));
              rw.sent == old(rw.sent) + s.output && View() == s.store && end == s.end
    {
      hide ServeRtu, HandleRtu, Crc, TailWord, Frame, FindFrame, Checks;
      ghost var whole := ServeRtu(View(), expectSlave, rw.Rest());
      ghost var answered: seq<byte> := [];
      while true
        invariant rw.Valid()
        invariant rw.sent == old(rw.sent) + answered
        invariant var s := ServeRtu(View(), expectSlave, rw.Rest());
                  whole == Session(answered + s.output, s.store, s.end)
        decreases |rw.Rest()|
      {
        ghost var t, input := View(), rw.Rest();
        var found, address, body, tail := ReadFrame(rw);
        if !found.Got? {
          ServeStops(t, expectSlave, input);
          return if found.NeedMore? then EndOfInput else UnknownFunction;
        }
        ghost var frame := [address] + body + tail;
        assert input == frame + rw.Rest();
        FindPrefixOf(input, |frame|);
        FrameRead(frame, address, body, tail);
        ServeStep(t, expectSlave, frame, rw.Rest());
        var crcCalc := Crc16Modbus([address] + body);
        if crcCalc != TailWord(tail) {
          continue;
        }
        if expectSlave != 0 && address != expectSlave {
          continue;
        }
        var o := AnswerFrame(rw, address, body);
        if o.Panicked? {
          return Crashed;
        }
        Concat3(answered, Frame(address, Answer(o)), ServeRtu(View(), expectSlave, rw.Rest()).output);
        answered := answered + Frame(address, Answer(o));
      }
    }

    /** `rtuStream` of cmd/server/main.go, which has no address filter. */
    method ServeSerial(rw: Conn) returns (end: End)
      requires Valid() && rw.Valid()
      modifies rw, coils, holding
      ensures rw.Valid()
      ensures var s := ServeRtu(old(View()), 0, old(rw.Rest()));
              rw.sent == old(rw.sent) + s.output && View() == s.store && end == s.end
    {
      hide ServeRtu, HandleRtu, Crc, TailWord, Frame, FindFrame, Checks;
      ghost var whole := ServeRtu(View(), 0, rw.Rest());
      ghost var answered: seq<byte> := [];
      while true
        invariant rw.Valid()
        invariant rw.sent == old(rw.sent) + answered
        invariant var s := ServeRtu(View(), 0, rw.Rest());
                  whole == Session(answered + s.output, s.store, s.end)
        decreases |rw.Rest()|
      {
        ghost var t, input := View(), rw.Rest();
        var found, address, body, tail := ReadFrame(rw);
        if !found.Got? {
          ServeStops(t, 0, input);
          return if found.NeedMore? then EndOfInput else UnknownFunction;
        }
        ghost var frame := [address] + body + tail;
        assert input == frame + rw.Rest();
        FindPrefixOf(input, |frame|);
        FrameRead(frame, address, body, tail);
        ServeStep(t, 0, frame, rw.Rest());
        var crc := Crc16Modbus([address] + body);
        if crc != TailWord(tail) {
          continue;
        }
        var o := AnswerFrame(rw, address, body);
        if o.Panicked? {
          return Crashed;
        }
        Concat3(answered, Frame(address, Answer(o)), ServeRtu(View(), 0, rw.Rest()).output);
        answered := answered + Frame(address, Answer(o));
      }
    }
  }

  lemma EchoedFields(pdu: seq<byte>)
    requires |pdu| >= 5
    ensures [pdu[0]] + BigEndian(Start(pdu)) + BigEndian(Count(pdu)) == pdu[..5]
  {
    BigEndianOfWord(pdu[1], pdu[2]);
    BigEndianOfWord(pdu[3], pdu[4]);
    hide BigEndian, WordOf;
  }

  lemma ServeStops(t: Store, slave: byte, input: seq<byte>)
    requires !FindFrame(input).Got?
    ensures ServeRtu(t, slave, input) == Session([], t, if FindFrame(input).NeedMore? then EndOfInput else UnknownFunction)
  {
    hide FindFrame;
  }

  lemma FrameRead(frame: seq<byte>, address: byte, body: seq<byte>, tail: seq<byte>)
    requires body != [] && |tail| == 2 && frame == [address] + body + tail
    ensures frame[0] == address && frame[1..|frame| - 2] == body
    ensures Checks(frame) <==> Crc([address] + body) == TailWord(tail)
  {
    hide Crc, TailWord;
    assert frame[..|frame| - 2] == [address] + body && frame[|frame| - 2..] == tail;
  }

  lemma FindPrefixOf(input: seq<byte>, n: nat)
    requires FindFrame(input) == Got(n)
    ensures FindFrame(input[..n]) == Got(n)
  {
  }

  lemma FourParts(input: seq<byte>, head: seq<byte>, hdr: seq<byte>, payload: seq<byte>, tail: seq<byte>)
    requires |head| == 2 && |hdr| == 5 && |tail| == 2 && |input| >= 9 + |payload|
    requires head == input[..2] && hdr == input[2..][..5]
    requires payload == input[2..][5..][..|payload|] && tail == input[2..][5..][|payload|..][..2]
    ensures [head[0]] + ([head[1]] + hdr + payload) + tail == input[..9 + |payload|]
    ensures input[9 + |payload|..] == input[2..][5..][|payload|..][2..]
  {
  }

  /** The reads at the head of the loop of `handleStream`: the address, the octets the checksum
      covers after it, and the two checksum octets. */
  method ReadFrame(rw: Conn) returns (found: Scan, address: byte, body: seq<byte>, tail: seq<byte>)
    requires rw.Valid()
    modifies rw`pos
    ensures rw.Valid()
    ensures found == FindFrame(old(rw.Rest()))
    ensures found.Got? ==> && body != [] && |tail| == 2
                           && [address] + body + tail == old(rw.Rest())[..found.size]
                           && rw.Rest() == old(rw.Rest())[found.size..]
  {
    ghost var input := rw.Rest();
    address, body, tail := 0, [], [];
    var ok, head := rw.ReadFull(2);
    if !ok {
      return NeedMore, address, body, tail;
    }
    address := head[0];
    var fn := head[1];
    if 0x01 <= fn <= 0x06 {
      var rest;
      ok, rest := rw.ReadFull(6);
      if !ok {
        return NeedMore, address, body, tail;
      }
      assert rest == input[2..][..6];
      assert [address] + ([fn] + rest[..4]) + rest[4..] == input[..8];
      return Got(8), address, [fn] + rest[..4], rest[4..];
    } else if fn == 0x0F || fn == 0x10 {
      var hdr, payload;
      ok, hdr := rw.ReadFull(5);
      if !ok {
        return NeedMore, address, body, tail;
      }
      assert hdr == input[2..7] && hdr[4] == input[6];
      ok, payload := rw.ReadFull(hdr[4]);
      if !ok {
        return NeedMore, address, body, tail;
      }
      ok, tail := rw.ReadFull(2);
      if !ok {
        return NeedMore, address, body, tail;
      }
      FourParts(input, head, hdr, payload, tail);
      return Got(2 + |hdr| + |payload| + 2), address, [fn] + hdr + payload, tail;
    } else {
      return Unknown, address, body, tail;
    }
  }
}
