/** The serial line and the TCP connection on the octets alone: check values, frame layout and
    lengths, addresses, headers, and which damage is harmless. */
module LineConformance {
  import opened Bytes
  import opened Crc16
  import opened Detection
  import opened Engine
  import opened EngineLaws
  import opened Conformance
  import Rtu = RtuStream
  import Tcp = TcpStream

  // ---------------------------------------------------------------------------
  // Check values
  // ---------------------------------------------------------------------------

  function Eight(c: bv16): bv16 {
    Shift(Shift(Shift(Shift(Shift(Shift(Shift(Shift(c))))))))
  }

  /** One octet, as eight turns of the loop. */
  lemma StepIs(c: bv16, b: byte, o: bv8)
    requires b == o as nat
    ensures ByteStep(c, b) == Eight(c ^ (o as bv16))
  {
    hide Shift;
    OctetOfNat(o);
    ShiftEight(Xor(c, Widen(b)));
  }

  /** The worked example of section 6.2.2: the octets 02 and 07 give 0x1241, sent as 41 12. */
  lemma CheckValue()
    ensures Crc([0x02, 0x07]) == 0x1241
    ensures Rtu.Frame(0x02, [0x07]) == [0x02, 0x07, 0x41, 0x12]
  {
    hide ByteStep, Eight, Fold, Octet;
    FoldPair(SEED, 0x02, 0x07);
    StepIs(0xFFFF, 0x02, 0x02);
    StepIs(0x813E, 0x07, 0x07);
    First();
    Second();
    assert [0x02] + [0x07] == [0x02, 0x07];
  }

  lemma First()
    ensures Eight(0xFFFF ^ 0x0002) == 0x813E
  {
  }

  lemma Second()
    ensures Eight(0x813E ^ 0x0007) == 0x1241
  {
  }

  lemma {:induction false} FoldCons(c: bv16, b: byte, o: bv8, rest: seq<byte>)
    requires b == o as nat
    ensures Fold(c, [b] + rest) == Fold(Eight(c ^ (o as bv16)), rest)
  {
    hide ByteStep, Eight;
    StepIs(c, b, o);
    assert ([b] + rest)[1..] == rest;
  }

  lemma ReadTenSteps()
    ensures Eight(0xFFFF ^ 0x0001) == 0x807E && Eight(0x807E ^ 0x0003) == 0x2140 && Eight(0x2140 ^ 0x0000) == 0xF020
    ensures Eight(0xF020 ^ 0x0000) == 0xD8F1 && Eight(0xD8F1 ^ 0x0000) == 0x8419 && Eight(0x8419 ^ 0x000A) == 0xCDC5
  {
  }

  lemma ReadTenCrc()
    ensures Crc([0x01, 0x03, 0x00, 0x00, 0x00, 0x0A]) == 0xCDC5
  {
    hide Eight, Fold;
    ReadTenSteps();
    FoldCons(0xFFFF, 0x01, 0x01, [0x03, 0x00, 0x00, 0x00, 0x0A]);
    FoldCons(0x807E, 0x03, 0x03, [0x00, 0x00, 0x00, 0x0A]);
    FoldCons(0x2140, 0x00, 0x00, [0x00, 0x00, 0x0A]);
    FoldCons(0xF020, 0x00, 0x00, [0x00, 0x0A]);
    FoldCons(0xD8F1, 0x00, 0x00, [0x0A]);
    FoldCons(0x8419, 0x0A, 0x0A, []);
    NoMore(0xCDC5);
    assert [0x01] + [0x03, 0x00, 0x00, 0x00, 0x0A] == [0x01, 0x03, 0x00, 0x00, 0x00, 0x0A];
    assert [0x03] + [0x00, 0x00, 0x00, 0x0A] == [0x03, 0x00, 0x00, 0x00, 0x0A];
    assert [0x00] + [0x00, 0x00, 0x0A] == [0x00, 0x00, 0x00, 0x0A];
    assert [0x00] + [0x00, 0x0A] == [0x00, 0x00, 0x0A];
    assert [0x00] + [0x0A] == [0x00, 0x0A];
    assert [0x0A] + [] == [0x0A];
  }

  lemma NoMore(c: bv16)
    ensures Fold(c, []) == c
  {
  }

  /** The request of a master for ten registers of slave 1, as it is on the wire. */
  lemma ReadTenFrame()
    ensures Rtu.Frame(0x01, [0x03, 0x00, 0x00, 0x00, 0x0A]) == [0x01, 0x03, 0x00, 0x00, 0x00, 0x0A, 0xC5, 0xCD]
  {
    hide Crc;
    ReadTenCrc();
    assert [0x01] + [0x03, 0x00, 0x00, 0x00, 0x0A] == [0x01, 0x03, 0x00, 0x00, 0x00, 0x0A];
  }

  // ---------------------------------------------------------------------------
  // The serial line
  // ---------------------------------------------------------------------------

  lemma OctetNumbers(c: bv16)
    ensures (c & 0xFF) as nat == c as nat % 256 && (c >> 8) as nat == c as nat / 256
  {
  }

  /** A frame: the address, the PDU, then the checksum of both, low octet first. */
  lemma FrameOnOctets(address: byte, pdu: seq<byte>)
    ensures var crc: nat := Crc([address] + pdu) as nat;
            Rtu.Frame(address, pdu) == [address] + pdu + [crc % 256, crc / 256]
  {
    hide Crc;
    OctetNumbers(Crc([address] + pdu));
  }

  /** How many octets a request has, by its function code and octet count. */
  function Needed(input: seq<byte>): nat
    requires |input| >= 7 || (|input| >= 2 && input[1] <= 6)
  {
    if input[1] <= 6 then 8 else 9 + input[6] as nat
  }

  /** A function code that is not one of the eight ends the connection; an unfinished request waits. */
  lemma LengthsOnOctets(t: Store, slave: byte, input: seq<byte>)
    ensures |input| < 2 ==> Rtu.ServeRtu(t, slave, input) == Rtu.Session([], t, Rtu.EndOfInput)
    ensures |input| >= 2 && !Supported(input[1]) ==> Rtu.ServeRtu(t, slave, input) == Rtu.Session([], t, Rtu.UnknownFunction)
    ensures |input| >= 2 && Supported(input[1]) && ((|input| < 7 && input[1] > 6) || |input| < Needed(input)) ==>
              Rtu.ServeRtu(t, slave, input) == Rtu.Session([], t, Rtu.EndOfInput)
  {
    hide Checks, HandleRtu;
  }

  lemma DelimitedFrame(pdu: seq<byte>)
    ensures Framed(pdu) <==> Delimited(pdu)
  {
  }

  /** A slave answers its own address, or every address if its id is zero; to others it is silent. */
  lemma AddressOnOctets(t: Store, slave: byte, address: byte, pdu: seq<byte>, rest: seq<byte>)
    requires Delimited(pdu)
    ensures slave != 0 && slave != address ==>
              Rtu.ServeRtu(t, slave, Rtu.Frame(address, pdu) + rest) == Rtu.ServeRtu(t, slave, rest)
    ensures slave == 0 || slave == address ==>
              var h := HandleRtu(t, pdu);
              if h.outcome.Replied? then
                var s := Rtu.ServeRtu(h.store, slave, rest);
                Rtu.ServeRtu(t, slave, Rtu.Frame(address, pdu) + rest)
                == Rtu.Session(Rtu.Frame(address, h.outcome.reply) + s.output, s.store, s.end)
              else Rtu.ServeRtu(t, slave, Rtu.Frame(address, pdu) + rest) == Rtu.Session([], h.store, Rtu.Crashed)
  {
    hide Rtu.ServeRtu, Rtu.Frame, HandleRtu, Delimited, Framed, ShortCoilWrite;
    DelimitedFrame(pdu);
    if slave != 0 && slave != address {
      Rtu.UnheardFrame(t, slave, Rtu.Request(address, pdu), rest);
    } else {
      Rtu.GoodFrame(t, slave, address, pdu, rest);
    }
  }

  // ---------------------------------------------------------------------------
  // Damage
  // ---------------------------------------------------------------------------

  function Half8(o: bv8): bv8 {
    o >> 1
  }

  function Down(o: bv8, j: nat): bv8
    requires j < 8
  {
    o >> j
  }

  predicate Low(o: bv8) {
    o & 1 == 1
  }

  lemma DownNone(o: bv8)
    ensures Down(o, 0) == o
  {
    Unshifted8(o, 0);
  }

  lemma Unshifted8(o: bv8, j: nat)
    requires j == 0
    ensures o >> j == o
  {
  }

  lemma DownStep(o: bv8, j: nat)
    requires j < 7
    ensures Down(o, j + 1) == Half8(Down(o, j))
  {
    OneFurther(o, j);
  }

  lemma XorHalf8(a: bv8, b: bv8)
    ensures Half8(XorOctet(a, b)) == XorOctet(Half8(a), Half8(b))
  {
  }

  lemma XorLow(a: bv8, b: bv8)
    ensures Low(XorOctet(a, b)) <==> Low(a) != Low(b)
  {
  }

  lemma {:induction false} XorDown(a: bv8, b: bv8, j: nat)
    requires j < 8
    ensures Down(XorOctet(a, b), j) == XorOctet(Down(a, j), Down(b, j))
    decreases j
  {
    hide XorOctet, Half8, Down;
    if j == 0 {
      DownNone(a);
      DownNone(b);
      DownNone(XorOctet(a, b));
    } else {
      XorDown(a, b, j - 1);
      DownStep(a, j - 1);
      DownStep(b, j - 1);
      DownStep(XorOctet(a, b), j - 1);
      XorHalf8(Down(a, j - 1), Down(b, j - 1));
    }
  }

  lemma BitIsLow(b: byte, j: nat)
    requires j < 8
    ensures Bit(b, j) <==> Low(Down(Octet(b), j))
  {
    hide Octet;
  }

  lemma XorByteBit(a: byte, b: byte, j: nat)
    requires j < 8
    ensures Bit(XorByte(a, b), j) <==> Bit(a, j) != Bit(b, j)
  {
    hide Octet, XorOctet, XorByte, Down, Low, Bit;
    XorByteOctet(a, b);
    BitIsLow(a, j);
    BitIsLow(b, j);
    BitIsLow(XorByte(a, b), j);
    XorDown(Octet(a), Octet(b), j);
    XorLow(Down(Octet(a), j), Down(Octet(b), j));
  }

  /** Each bit that is set in the error is flipped. */
  predicate Flipped(frame: seq<byte>, error: seq<byte>, damaged: seq<byte>) {
    && |damaged| == |error| == |frame|
    && (forall k, j | 0 <= k < |frame| && 0 <= j < 8 :: BitSet(damaged[k], j) <==> BitSet(frame[k], j) != BitSet(error[k], j))
  }

  lemma FlippedIsXor(frame: seq<byte>, error: seq<byte>, damaged: seq<byte>)
    requires Flipped(frame, error, damaged)
    ensures damaged == XorBytes(frame, error)
  {
    hide Bit, BitSet, XorByte;
    forall k | 0 <= k < |frame|
      ensures damaged[k] == XorBytes(frame, error)[k]
    {
      forall j: nat | j < 8
        ensures Bit(damaged[k], j) == Bit(XorByte(frame[k], error[k]), j)
      {
        BitInNumbers(damaged[k], j);
        BitInNumbers(frame[k], j);
        BitInNumbers(error[k], j);
        XorByteBit(frame[k], error[k], j);
      }
      BitExtensional(damaged[k], XorByte(frame[k], error[k]));
    }
  }

  /** The flipped bits, counted from the low bit of each octet, lie between `p` and `p + 15`. */
  predicate Within16(error: seq<byte>, p: nat) {
    forall k, j | 0 <= k < |error| && 0 <= j < 8 && BitSet(error[k], j) :: p <= 8 * k + j < p + 16
  }

  lemma Within16IsBurst(error: seq<byte>, p: nat)
    requires Within16(error, p)
    ensures Burst(MessageBits(error), p)
  {
    hide Bit, BitSet;
    forall i | 0 <= i < 8 * |error| && MessageBits(error)[i]
      ensures p <= i < p + 16
    {
      BitInNumbers(error[i / 8], i % 8);
      assert BitSet(error[i / 8], i % 8);
      assert 8 * (i / 8) + i % 8 == i;
    }
  }

  /** Any request for any slave: flip any bits of its frame that lie within 16 consecutive ones, but
      none of the function code or octet count, and it is as if it had not been sent. */
  lemma BurstOnOctets(t: Store, slave: byte, address: byte, pdu: seq<byte>, error: seq<byte>, damaged: seq<byte>, p: nat, rest: seq<byte>)
    requires Delimited(pdu)
    requires Flipped(Rtu.Frame(address, pdu), error, damaged) && Within16(error, p) && damaged != Rtu.Frame(address, pdu)
    requires error[1] == 0 && (pdu[0] >= 15 ==> error[6] == 0)
    ensures Rtu.ServeRtu(t, slave, damaged + rest) == Rtu.ServeRtu(t, slave, rest)
  {
    hide Rtu.Frame, Rtu.ServeRtu, Flipped, Within16, Burst, MessageBits, Rtu.KeepsBoundaries, Rtu.FindFrame, BitSet, XorByte;
    var frame := Rtu.Frame(address, pdu);
    DelimitedFrame(pdu);
    Rtu.FramedIsFound(address, pdu);
    Rtu.FrameParts(address, pdu);
    assert frame[1] == frame[1..|frame| - 2][0] == pdu[0];
    assert |error| == |frame| by {
      SameLength(frame, error, damaged);
    }
    Rtu.IntactBoundaries(frame, error);
    FlippedIsXor(frame, error, damaged);
    Within16IsBurst(error, p);
    if forall k | 0 <= k < |error| :: error[k] == 0 {
      assert error == Zeros(|frame|);
      XorWithZeros(frame);
    }
    Rtu.BurstContained(t, slave, address, pdu, error, p);
    assert Rtu.AsIfNotSent(t, slave, damaged);
  }

  lemma SameLength(frame: seq<byte>, error: seq<byte>, damaged: seq<byte>)
    requires Flipped(frame, error, damaged)
    ensures |error| == |frame|
  {
  }

  lemma {:induction false} OnesLast(bits: seq<bool>)
    requires bits != []
    ensures Ones(bits) == Ones(bits[..|bits| - 1]) + if bits[|bits| - 1] then 1 else 0
    decreases bits
  {
    if |bits| > 1 {
      OnesLast(bits[1..]);
      assert bits[1..][..|bits| - 2] == bits[..|bits| - 1][1..];
    }
  }

  function SetPlaces(bits: seq<bool>): set<int> {
    set i | 0 <= i < |bits| && bits[i]
  }

  lemma SetPlacesLast(bits: seq<bool>)
    requires bits != []
    ensures |SetPlaces(bits)| == |SetPlaces(bits[..|bits| - 1])| + if bits[|bits| - 1] then 1 else 0
  {
    var n := |bits| - 1;
    assert SetPlaces(bits) == SetPlaces(bits[..n]) + if bits[n] then {n} else {};
  }

  /** The number of set bits is the number of places where a bit is set. */
  lemma {:induction false} OnesCount(bits: seq<bool>)
    ensures Ones(bits) == |SetPlaces(bits)|
    decreases |bits|
  {
    if bits == [] {
      assert SetPlaces(bits) == {};
    } else {
      hide SetPlaces, Ones;
      OnesLast(bits);
      OnesCount(bits[..|bits| - 1]);
      SetPlacesLast(bits);
    }
  }

  // ---------------------------------------------------------------------------
  // The TCP connection
  // ---------------------------------------------------------------------------

  lemma ShortAdu(t: Store, h: seq<byte>, rest: seq<byte>)
    requires |h| == 7 && 256 * (h[4] as int) + h[5] <= 1
    ensures Tcp.ServeTcp(t, h + rest) == Tcp.ServeTcp(t, rest)
  {
    hide HandleTcp;
    assert (h + rest)[7..] == rest;
  }

  lemma PartAdu(t: Store, h: seq<byte>, pdu: seq<byte>)
    requires |h| == 7 && 256 * (h[4] as int) + h[5] > |pdu| + 1
    ensures Tcp.ServeTcp(t, h + pdu) == Tcp.Session([], t)
  {
    hide HandleTcp;
  }

  /** A seven-octet header `h`: transaction, protocol, the length of what follows it with the unit,
      high octet first, and the unit.  A length of 0 or 1 is read and ignored; else the reply has the
      same transaction and unit, protocol zero, and its own length. */
  lemma AduOnOctets(t: Store, h: seq<byte>, pdu: seq<byte>, rest: seq<byte>)
    requires |h| == 7
    ensures var length: int := 256 * (h[4] as int) + h[5];
            && (length <= 1 ==> Tcp.ServeTcp(t, h + rest) == Tcp.ServeTcp(t, rest))
            && (length > |pdu| + 1 ==> Tcp.ServeTcp(t, h + pdu) == Tcp.Session([], t))
            && |HandleTcp(t, pdu).reply| <= 253
            && (length == |pdu| + 1 && pdu != [] ==>
                  var reply, then_ := HandleTcp(t, pdu).reply, Tcp.ServeTcp(HandleTcp(t, pdu).store, rest);
                  Tcp.ServeTcp(t, h + pdu + rest)
                  == Tcp.Session([h[0], h[1], 0, 0, 0, |reply| + 1, h[6]] + reply + then_.output, then_.store))
  {
    hide HandleTcp, Tcp.ServeTcp;
    TcpLawful(t, pdu);
    var length: int := 256 * (h[4] as int) + h[5];
    if length <= 1 {
      ShortAdu(t, h, rest);
    } else if length > |pdu| + 1 {
      PartAdu(t, h, pdu);
    } else if length == |pdu| + 1 {
      WholeAdu(t, h, pdu, rest);
    }
  }

  lemma HeaderBack(h: seq<byte>, after: seq<byte>, reply: seq<byte>)
    requires |h| == 7 && |reply| <= 253
    ensures Tcp.ReplyHeader(h + after, reply) == [h[0], h[1], 0, 0, 0, |reply| + 1, h[6]]
  {
    var input := h + after;
    assert input[..2] == [h[0], h[1]] && input[6] == h[6];
  }

  lemma WholeAdu(t: Store, h: seq<byte>, pdu: seq<byte>, rest: seq<byte>)
    requires |h| == 7 && 256 * (h[4] as int) + h[5] == |pdu| + 1 && pdu != []
    ensures |HandleTcp(t, pdu).reply| <= 253
    ensures var reply, then_ := HandleTcp(t, pdu).reply, Tcp.ServeTcp(HandleTcp(t, pdu).store, rest);
            Tcp.ServeTcp(t, h + pdu + rest)
            == Tcp.Session([h[0], h[1], 0, 0, 0, |reply| + 1, h[6]] + reply + then_.output, then_.store)
  {
    hide HandleTcp, Tcp.ReplyHeader;
    var input := h + pdu + rest;
    assert input == h + (pdu + rest);
    assert input[7..7 + |pdu|] == pdu && input[7 + |pdu|..] == rest;
    TcpLawful(t, pdu);
    hide Lawful;
    HeaderBack(h, pdu + rest, HandleTcp(t, pdu).reply);
  }
}
