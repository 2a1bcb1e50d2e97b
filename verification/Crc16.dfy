/** The Modbus CRC-16 of "MODBUS over Serial Line", section 6.2.2, and its algebra.

    `Fold` is the octet-at-a-time register of the program; `Crc16Modbus` is its nested
    loop.  One turn is linear and invertible, the register is linear in message and
    seed, and a message followed by its checksum leaves the register zero, for messages
    of any length. */
module Crc16 {
  import opened Bytes

  const SEED: bv16 := 0xFFFF

  // ---------------------------------------------------------------------------
  // The register
  // ---------------------------------------------------------------------------

  /** Go's `^`, named so that proofs can treat it as a symbol. */
  function Xor(a: bv16, b: bv16): bv16 {
    a ^ b
  }

  /** One turn of the inner loop. */
  function Shift(c: bv16): bv16 {
    if c & 1 != 0 then (c >> 1) ^ 0xA001 else c >> 1
  }

  function ShiftN(c: bv16, n: nat): bv16
    decreases n
  {
    if n == 0 then c else ShiftN(Shift(c), n - 1)
  }

  function Widen(b: byte): bv16 {
    Octet(b) as bv16
  }

  function ByteStep(c: bv16, b: byte): bv16 {
    ShiftN(Xor(c, Widen(b)), 8)
  }

  function Fold(c: bv16, data: seq<byte>): bv16
    decreases data
  {
    if data == [] then c else Fold(ByteStep(c, data[0]), data[1..])
  }

  function Crc(data: seq<byte>): bv16 {
    Fold(SEED, data)
  }

  method Crc16Modbus(data: seq<byte>) returns (crc: bv16)
    ensures crc == Crc(data)
  {
    crc := SEED;
    for k := 0 to |data|
      invariant Fold(crc, data[k..]) == Fold(SEED, data)
    {
      hide Xor, Widen;
      ghost var rest := data[k..];
      assert rest[0] == data[k] && rest[1..] == data[k + 1..];
      ghost var next := ByteStep(crc, data[k]);
      crc := Xor(crc, Widen(data[k]));
      for i := 0 to 8
        invariant ShiftN(crc, 8 - i) == next
      {
        if crc & 1 != 0 {
          crc := (crc >> 1) ^ 0xA001;
        } else {
          crc := crc >> 1;
        }
      }
    }
  }

  lemma {:induction false} FoldAppend(c: bv16, a: seq<byte>, b: seq<byte>)
    ensures Fold(c, a + b) == Fold(Fold(c, a), b)
    decreases a
  {
    hide ByteStep;
    if a == [] {
      assert a + b == b;
    } else {
      assert (a + b)[0] == a[0] && (a + b)[1..] == a[1..] + b;
      FoldAppend(ByteStep(c, a[0]), a[1..], b);
    }
  }

  // ---------------------------------------------------------------------------
  // The shift is linear and has an inverse
  // ---------------------------------------------------------------------------

  function Unshift(c: bv16): bv16 {
    if c & 0x8000 != 0 then ((c ^ 0xA001) << 1) | 1 else c << 1
  }

  lemma UnshiftShift(c: bv16)
    ensures Unshift(Shift(c)) == c
  {
  }

  lemma ShiftUnshiftHigh(c: bv16)
    requires c & 0x8000 != 0
    ensures Shift(Unshift(c)) == c
  {
  }

  lemma ShiftUnshiftLow(c: bv16)
    requires c & 0x8000 == 0
    ensures Shift(Unshift(c)) == c
  {
  }

  lemma ShiftUnshift(c: bv16)
    ensures Shift(Unshift(c)) == c
  {
    hide *;
    if c & 0x8000 != 0 {
      ShiftUnshiftHigh(c);
    } else {
      ShiftUnshiftLow(c);
    }
  }

  lemma ShiftInjective(a: bv16, b: bv16)
    requires Shift(a) == Shift(b)
    ensures a == b
  {
    hide *;
    UnshiftShift(a);
    UnshiftShift(b);
  }

  lemma OddMask(c: bv16)
    requires c & 1 != 0
    ensures 0xA001 & (0 - (c & 1)) == 0xA001
  {
  }

  lemma EvenMask(c: bv16)
    requires c & 1 == 0
    ensures (c >> 1) ^ (0xA001 & (0 - (c & 1))) == c >> 1
  {
  }

  lemma ShiftAsMask(c: bv16)
    ensures Shift(c) == (c >> 1) ^ (0xA001 & (0 - (c & 1)))
  {
    if c & 1 != 0 {
      OddMask(c);
    } else {
      EvenMask(c);
    }
  }

  lemma MaskLinear(a: bv16, b: bv16)
    ensures ((a ^ b) >> 1) ^ (0xA001 & (0 - ((a ^ b) & 1)))
         == ((a >> 1) ^ (0xA001 & (0 - (a & 1)))) ^ ((b >> 1) ^ (0xA001 & (0 - (b & 1))))
  {
  }

  lemma ShiftLinear(a: bv16, b: bv16)
    ensures Shift(Xor(a, b)) == Xor(Shift(a), Shift(b))
  {
    hide Shift;
    ShiftAsMask(a);
    ShiftAsMask(b);
    ShiftAsMask(a ^ b);
    MaskLinear(a, b);
  }

  lemma {:induction false} ShiftNLinear(a: bv16, b: bv16, n: nat)
    ensures ShiftN(Xor(a, b), n) == Xor(ShiftN(a, n), ShiftN(b, n))
    decreases n
  {
    hide Shift, Xor;
    if n > 0 {
      ShiftLinear(a, b);
      ShiftNLinear(Shift(a), Shift(b), n - 1);
    }
  }

  // ---------------------------------------------------------------------------
  // Linearity of the checksum
  // ---------------------------------------------------------------------------

  function XorOctet(a: bv8, b: bv8): bv8 {
    a ^ b
  }

  function XorByte(a: byte, b: byte): byte {
    XorOctet(Octet(a), Octet(b)) as nat
  }

  function XorBytes(a: seq<byte>, b: seq<byte>): (c: seq<byte>)
    requires |a| == |b|
    ensures |c| == |a|
  {
    seq(|a|, i requires 0 <= i < |a| => XorByte(a[i], b[i]))
  }

  lemma XorByteOctet(a: byte, b: byte)
    ensures Octet(XorByte(a, b)) == XorOctet(Octet(a), Octet(b))
  {
    hide Octet, XorOctet;
    OctetOfNat(XorOctet(Octet(a), Octet(b)));
  }

  lemma WidenXorOctet(a: bv8, b: bv8)
    ensures XorOctet(a, b) as bv16 == Xor(a as bv16, b as bv16)
  {
  }

  lemma WidenXor(a: byte, b: byte)
    ensures Widen(XorByte(a, b)) == Xor(Widen(a), Widen(b))
  {
    hide Octet, XorByte, Xor, XorOctet;
    XorByteOctet(a, b);
    WidenXorOctet(Octet(a), Octet(b));
  }

  lemma XorCommutes(a: bv16, b: bv16)
    ensures Xor(a, b) == Xor(b, a)
  {
  }

  lemma XorAssociates(a: bv16, b: bv16, c: bv16)
    ensures Xor(Xor(a, b), c) == Xor(a, Xor(b, c))
  {
  }

  lemma XorMiddle(a: bv16, b: bv16, x: bv16, y: bv16)
    ensures Xor(Xor(a, b), Xor(x, y)) == Xor(Xor(a, x), Xor(b, y))
  {
    hide Xor;
    XorAssociates(a, b, Xor(x, y));
    XorAssociates(b, x, y);
    XorCommutes(b, x);
    XorAssociates(x, b, y);
    XorAssociates(a, x, Xor(b, y));
  }

  lemma ByteStepLinear(a: bv16, b: bv16, x: byte, y: byte)
    ensures ByteStep(Xor(a, b), XorByte(x, y)) == Xor(ByteStep(a, x), ByteStep(b, y))
  {
    hide ShiftN, Widen, XorByte, Xor;
    WidenXor(x, y);
    XorMiddle(a, b, Widen(x), Widen(y));
    ShiftNLinear(Xor(a, Widen(x)), Xor(b, Widen(y)), 8);
  }

  lemma {:induction false} FoldLinear(a: bv16, b: bv16, x: seq<byte>, y: seq<byte>)
    requires |x| == |y|
    ensures Fold(Xor(a, b), XorBytes(x, y)) == Xor(Fold(a, x), Fold(b, y))
    decreases x
  {
    hide ByteStep, XorByte, Xor;
    if x == [] {
    } else {
      var z := XorBytes(x, y);
      assert z[1..] == XorBytes(x[1..], y[1..]);
      ByteStepLinear(a, b, x[0], y[0]);
      FoldLinear(ByteStep(a, x[0]), ByteStep(b, y[0]), x[1..], y[1..]);
    }
  }

  function Zeros(n: nat): (z: seq<byte>)
    ensures |z| == n
  {
    seq(n, _ => 0)
  }

  lemma XorSelf(a: bv16)
    ensures Xor(a, a) == 0
  {
  }

  lemma XorZero(a: bv16)
    ensures Xor(a, 0) == a && Xor(0, a) == a
  {
  }

  /** For messages of one length the checksum is affine: the seed and the length
      contribute the checksum of the all-zero message. */
  lemma CrcAffine(a: seq<byte>, b: seq<byte>)
    requires |a| == |b|
    ensures Fold(SEED, XorBytes(a, b))
         == Xor(Xor(Fold(SEED, a), Fold(SEED, b)), Fold(SEED, Zeros(|a|)))
  {
    hide Fold, Xor, XorByte;
    var z := Zeros(|a|);
    XorSelf(SEED);
    XorZero(SEED);
    FoldLinear(SEED, 0, XorBytes(a, b), z);
    XorWithZeros(XorBytes(a, b));
    FoldLinear(SEED, SEED, a, b);
    FoldLinear(0, SEED, XorBytes(a, b), z);
    XorAssociates(Fold(0, XorBytes(a, b)), Fold(SEED, z), 0);
  }

  lemma XorByteZero(b: byte)
    ensures XorByte(b, 0) == b && XorByte(0, b) == b
  {
    hide Octet;
    NatOfOctet(b);
    assert Octet(0) == 0 by {
      NatOfOctet(0);
      OctetOfNat(0);
    }
    XorOctetZero(Octet(b));
  }

  lemma XorOctetZero(o: bv8)
    ensures XorOctet(o, 0) == o && XorOctet(0, o) == o
  {
  }

  lemma XorWithZeros(a: seq<byte>)
    ensures XorBytes(a, Zeros(|a|)) == a
  {
    hide XorByte;
    forall i | 0 <= i < |a|
      ensures XorBytes(a, Zeros(|a|))[i] == a[i]
    {
      XorByteZero(a[i]);
    }
  }

  // ---------------------------------------------------------------------------
  // Residue
  // ---------------------------------------------------------------------------

  lemma {:induction false} ShiftNInjective(a: bv16, b: bv16, n: nat)
    requires ShiftN(a, n) == ShiftN(b, n)
    ensures a == b
    decreases n
  {
    hide Shift;
    if n > 0 {
      ShiftNInjective(Shift(a), Shift(b), n - 1);
      ShiftInjective(a, b);
    }
  }

  lemma {:induction false} ShiftNZero(n: nat)
    ensures ShiftN(0, n) == 0
    decreases n
  {
    if n > 0 {
      assert Shift(0) == 0;
      ShiftNZero(n - 1);
    }
  }

  lemma HighOctetFalls(h: bv8)
    ensures Shift(Shift(Shift(Shift(Shift(Shift(Shift(Shift(h as bv16 << 8)))))))) == h as bv16
  {
  }

  lemma {:induction false} ShiftEight(c: bv16)
    ensures ShiftN(c, 8) == Shift(Shift(Shift(Shift(Shift(Shift(Shift(Shift(c))))))))
  {
    hide Shift;
    assert ShiftN(c, 8) == ShiftN(Shift(Shift(c)), 6);
    assert ShiftN(c, 8) == ShiftN(Shift(Shift(Shift(Shift(c)))), 4);
    assert ShiftN(c, 8) == ShiftN(Shift(Shift(Shift(Shift(Shift(Shift(c)))))), 2);
  }

  /** Go's `binary.LittleEndian.Uint16`. */
  function Join(hi: bv8, lo: bv8): bv16 {
    (hi as bv16 << 8) | lo as bv16
  }

  function TailWord(tail: seq<byte>): bv16
    requires |tail| == 2
  {
    Join(Octet(tail[1]), Octet(tail[0]))
  }

  /** Go's `binary.LittleEndian.PutUint16`. */
  function Tail(c: bv16): (tail: seq<byte>)
    ensures |tail| == 2
  {
    [(c & 0xFF) as nat, (c >> 8) as nat]
  }

  lemma TailRegister(tail: seq<byte>)
    requires |tail| == 2
    ensures TailWord(tail) == Join(Octet(tail[1]), Octet(tail[0]))
  {
  }

  lemma JoinXor(hi: bv8, lo: bv8)
    ensures Xor(Join(hi, lo), lo as bv16) == hi as bv16 << 8
  {
  }

  lemma XorCancel(a: bv16, b: bv16, x: bv16)
    requires Xor(a, x) == Xor(b, x)
    ensures a == b
  {
    hide Xor;
    XorAssociates(a, x, x);
    XorAssociates(b, x, x);
    XorSelf(x);
    XorZero(a);
    XorZero(b);
  }

  /** A register is cancelled by its own two octets, and by no others. */
  lemma StepCancels(c: bv16, lo: byte, hi: byte)
    ensures ByteStep(ByteStep(c, lo), hi) == 0 <==> c == Join(Octet(hi), Octet(lo))
  {
    hide Shift, Octet, Xor, ShiftN, Join;
    var h := Octet(hi) as bv16 << 8;
    assert ByteStep(Join(Octet(hi), Octet(lo)), lo) == Widen(hi) by {
      JoinXor(Octet(hi), Octet(lo));
      ShiftEight(h);
      HighOctetFalls(Octet(hi));
    }
    XorSelf(Widen(hi));
    ShiftNZero(8);
    if ByteStep(ByteStep(c, lo), hi) == 0 {
      ShiftNInjective(Xor(ByteStep(c, lo), Widen(hi)), 0, 8);
      XorCancel(ByteStep(c, lo), Widen(hi), Widen(hi));
      ShiftNInjective(Xor(c, Widen(lo)), Xor(Join(Octet(hi), Octet(lo)), Widen(lo)), 8);
      XorCancel(c, Join(Octet(hi), Octet(lo)), Widen(lo));
    }
  }

  lemma FoldPair(c: bv16, lo: byte, hi: byte)
    ensures Fold(c, [lo, hi]) == ByteStep(ByteStep(c, lo), hi)
  {
    hide ByteStep;
    assert [lo, hi][1..] == [hi];
    assert [hi][1..] == [];
    assert Fold(ByteStep(c, lo), [hi]) == ByteStep(ByteStep(c, lo), hi);
  }

  /** The register after a whole frame, checksum octets included, is zero exactly when
      the last two octets are the little-endian checksum of the rest. */
  lemma Residue(data: seq<byte>, tail: seq<byte>)
    requires |tail| == 2
    ensures Fold(SEED, data + tail) == 0 <==> Crc(data) == TailWord(tail)
    ensures Crc(data) == TailWord(tail) <==> tail == Tail(Crc(data))
  {
    hide Fold, Join, Octet, ByteStep, Tail, TailWord;
    if Crc(data) == TailWord(tail) {
      TailRoundTrip(Crc(data));
      TailInjective(tail, Tail(Crc(data)));
    }
    TailRoundTrip(Crc(data));
    TailRegister(tail);
    FoldAppend(SEED, data, tail);
    assert tail == [tail[0], tail[1]];
    FoldPair(Fold(SEED, data), tail[0], tail[1]);
    StepCancels(Fold(SEED, data), tail[0], tail[1]);
  }

  lemma JoinParts(c: bv16)
    ensures Join((c >> 8) as bv8, (c & 0xFF) as bv8) == c
  {
  }

  lemma NarrowOctets(c: bv16)
    ensures Octet((c & 0xFF) as nat) == (c & 0xFF) as bv8
    ensures Octet((c >> 8) as nat) == (c >> 8) as bv8
  {
  }

  /** The octets that are sent decode to the register they came from. */
  lemma TailRoundTrip(c: bv16)
    ensures TailWord(Tail(c)) == c
  {
    hide Join, Octet;
    NarrowOctets(c);
    JoinParts(c);
  }

  lemma JoinInjective(hi: bv8, lo: bv8, hi': bv8, lo': bv8)
    requires Join(hi, lo) == Join(hi', lo')
    ensures hi == hi' && lo == lo'
  {
  }

  lemma TailInjective(a: seq<byte>, b: seq<byte>)
    requires |a| == |b| == 2 && TailWord(a) == TailWord(b)
    ensures a == b
  {
    hide Join, Octet;
    JoinInjective(Octet(a[1]), Octet(a[0]), Octet(b[1]), Octet(b[0]));
    OctetInjective(a[0], b[0]);
    OctetInjective(a[1], b[1]);
  }
}
