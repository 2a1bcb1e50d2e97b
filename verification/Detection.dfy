/** Which damage the checksum finds. */
module Detection {
  import opened Bytes
  import opened Crc16

  // ---------------------------------------------------------------------------
  // The bit-serial reference
  // ---------------------------------------------------------------------------

  function Flag(b: bool): bv16 {
    if b then 1 else 0
  }

  /** A shift register that takes in one message bit at a time. */
  function BitFold(c: bv16, bits: seq<bool>): bv16
    decreases bits
  {
    if bits == [] then c else BitFold(Shift(Xor(c, Flag(bits[0]))), bits[1..])
  }

  function OctetBits(b: byte): (bits: seq<bool>)
    ensures |bits| == 8
  {
    seq(8, j requires 0 <= j < 8 => Bit(b, j))
  }

  /** The bits of a message in the order they are sent. */
  function MessageBits(data: seq<byte>): (bits: seq<bool>)
    ensures |bits| == 8 * |data|
  {
    seq(8 * |data|, i requires 0 <= i < 8 * |data| => Bit(data[i / 8], i % 8))
  }

  function Half(x: bv16): bv16 {
    x >> 1
  }

  predicate LowBit(x: bv16) {
    x & 1 == 1
  }

  function Peel(x: bv16, n: nat): bv16
    decreases n
  {
    if n == 0 then x else Peel(Half(x), n - 1)
  }

  function WordBits(x: bv16, n: nat): (bits: seq<bool>)
    ensures |bits| == n
    decreases n
  {
    if n == 0 then [] else [LowBit(x)] + WordBits(Half(x), n - 1)
  }

  lemma SplitLowBit(x: bv16)
    ensures x == Xor(x & 1, (x >> 1) << 1)
  {
  }

  lemma ShiftEven(x: bv16)
    ensures Shift((x >> 1) << 1) == x >> 1
  {
  }

  lemma LowFlag(x: bv16)
    ensures Flag(x & 1 == 1) == x & 1
  {
  }

  lemma PeelBit(c: bv16, x: bv16)
    ensures Shift(Xor(c, x)) == Xor(Shift(Xor(c, Flag(LowBit(x)))), Half(x))
  {
    hide Shift, Xor, Flag;
    LowFlag(x);
    SplitLowBit(x);
    XorAssociates(c, x & 1, (x >> 1) << 1);
    ShiftLinear(Xor(c, x & 1), (x >> 1) << 1);
    ShiftEven(x);
  }

  lemma {:induction false} ShiftNBits(c: bv16, x: bv16, n: nat)
    ensures ShiftN(Xor(c, x), n) == Xor(BitFold(c, WordBits(x, n)), Peel(x, n))
    decreases n
  {
    hide Shift, Xor, Flag, LowBit, Half;
    if n > 0 {
      PeelBit(c, x);
      ShiftNBits(Shift(Xor(c, Flag(LowBit(x)))), Half(x), n - 1);
      assert WordBits(x, n)[1..] == WordBits(Half(x), n - 1);
    }
  }

  /** The octet without its `k` lowest bits, as a register. */
  function Drop(o: bv8, k: nat): bv16
    requires k <= 8
  {
    (o >> k) as bv16
  }

  lemma ShiftOnce(o: bv8, k: nat)
    requires k < 8
    ensures (o >> k) >> 1 == o >> (k + 1)
  {
  }

  lemma WidenShift(o: bv8)
    ensures (o as bv16) >> 1 == (o >> 1) as bv16
  {
  }

  lemma WidenLow(o: bv8)
    ensures (o as bv16) & 1 == 1 <==> o & 1 == 1
  {
  }

  lemma DropStep(o: bv8, k: nat)
    requires k < 8
    ensures Half(Drop(o, k)) == Drop(o, k + 1)
  {
    ShiftOnce(o, k);
    WidenShift(o >> k);
  }

  lemma DropAll(o: bv8)
    ensures Drop(o, 8) == 0
  {
  }

  lemma DropNone(o: bv8, k: nat)
    requires k == 0
    ensures Drop(o, k) == o as bv16
  {
    ShiftZero(o, k);
  }

  lemma ShiftZero(o: bv8, k: nat)
    requires k == 0
    ensures o >> k == o
  {
  }

  lemma BitIsDrop(b: byte, j: nat)
    requires j < 8
    ensures Bit(b, j) <==> LowBit(Drop(Octet(b), j))
  {
    hide Octet;
    WidenLow(Octet(b) >> j);
  }

  lemma BitSlice(b: byte, k: nat, n: nat)
    requires k + n <= 8 && n > 0
    ensures OctetBits(b)[k..k + n] == [Bit(b, k)] + OctetBits(b)[k + 1..k + n]
  {
    hide Bit;
  }

  lemma {:induction false} OctetPeel(b: byte, k: nat, n: nat)
    requires k + n <= 8
    ensures Peel(Drop(Octet(b), k), n) == Drop(Octet(b), k + n)
    ensures WordBits(Drop(Octet(b), k), n) == OctetBits(b)[k..k + n]
    decreases n
  {
    hide Octet, Drop, LowBit, Half, Bit;
    if n > 0 {
      DropStep(Octet(b), k);
      OctetPeel(b, k + 1, n - 1);
      BitIsDrop(b, k);
      BitSlice(b, k, n);
    } else {
      assert OctetBits(b)[k..k] == [];
    }
  }

  /** One octet is eight bits, least significant first. */
  lemma ByteStepBits(c: bv16, b: byte)
    ensures ByteStep(c, b) == BitFold(c, OctetBits(b))
  {
    hide Octet, Drop, OctetBits, ShiftN, BitFold, Xor, Peel, WordBits;
    DropAll(Octet(b));
    DropNone(Octet(b), 0);
    OctetPeel(b, 0, 8);
    ShiftNBits(c, Widen(b), 8);
    XorZero(BitFold(c, OctetBits(b)));
    assert OctetBits(b)[0..8] == OctetBits(b);
  }

  lemma {:induction false} BitFoldAppend(c: bv16, a: seq<bool>, b: seq<bool>)
    ensures BitFold(c, a + b) == BitFold(BitFold(c, a), b)
    decreases a
  {
    hide Shift, Xor, Flag;
    if a == [] {
      assert a + b == b;
    } else {
      assert (a + b)[0] == a[0] && (a + b)[1..] == a[1..] + b;
      BitFoldAppend(Shift(Xor(c, Flag(a[0]))), a[1..], b);
    }
  }

  lemma MessageBitsCons(data: seq<byte>)
    requires data != []
    ensures MessageBits(data) == OctetBits(data[0]) + MessageBits(data[1..])
  {
    hide Bit;
  }

  /** The octet-at-a-time register of the program is the bit-serial shift register. */
  lemma {:induction false} BitSerial(c: bv16, data: seq<byte>)
    ensures Fold(c, data) == BitFold(c, MessageBits(data))
    decreases data
  {
    hide ByteStep, OctetBits;
    if data == [] {
    } else {
      MessageBitsCons(data);
      BitFoldAppend(c, OctetBits(data[0]), MessageBits(data[1..]));
      ByteStepBits(c, data[0]);
      BitSerial(ByteStep(c, data[0]), data[1..]);
    }
  }

  // ---------------------------------------------------------------------------
  // Parity
  // ---------------------------------------------------------------------------

  function Ones(bits: seq<bool>): nat
    decreases bits
  {
    if bits == [] then 0 else (if bits[0] then 1 else 0) + Ones(bits[1..])
  }

  predicate Odd(n: nat) {
    n % 2 == 1
  }

  /** Whether an odd number of the `n` lowest register bits are set. */
  predicate LowParity(x: bv16, n: nat)
    decreases n
  {
    n > 0 && LowBit(x) != LowParity(Half(x), n - 1)
  }

  predicate Parity(c: bv16) {
    LowParity(c, 16)
  }

  lemma LowBitXor(a: bv16, b: bv16)
    ensures LowBit(Xor(a, b)) <==> LowBit(a) != LowBit(b)
  {
  }

  lemma HalfXor(a: bv16, b: bv16)
    ensures Half(Xor(a, b)) == Xor(Half(a), Half(b))
  {
  }

  lemma {:induction false} LowParityXor(a: bv16, b: bv16, n: nat)
    ensures LowParity(Xor(a, b), n) == (LowParity(a, n) != LowParity(b, n))
    decreases n
  {
    hide LowBit, Half, Xor;
    if n > 0 {
      LowBitXor(a, b);
      HalfXor(a, b);
      LowParityXor(Half(a), Half(b), n - 1);
    }
  }

  lemma {:induction false} LowParityLast(x: bv16, n: nat)
    ensures LowParity(x, n + 1) == (LowParity(x, n) != LowBit(Peel(x, n)))
    decreases n
  {
    hide LowBit, Half;
    if n > 0 {
      LowParityLast(Half(x), n - 1);
    }
  }

  lemma HalfAll(x: bv16)
    ensures x >> 1 >> 1 >> 1 >> 1 >> 1 >> 1 >> 1 >> 1 >> 1 >> 1 >> 1 >> 1 >> 1 >> 1 >> 1 >> 1 == 0
  {
  }

  lemma {:induction false} PeelAdd(x: bv16, m: nat, n: nat)
    ensures Peel(Peel(x, m), n) == Peel(x, m + n)
    decreases m
  {
    hide Half;
    if m > 0 {
      PeelAdd(Half(x), m - 1, n);
    }
  }

  lemma PeelFour(x: bv16)
    ensures Peel(x, 4) == x >> 1 >> 1 >> 1 >> 1
  {
    assert Peel(x, 4) == Peel(Half(Half(x)), 2);
  }

  lemma PeelAll(x: bv16)
    ensures Peel(x, 16) == 0
  {
    hide Peel;
    PeelAdd(x, 4, 4);
    PeelAdd(x, 8, 4);
    PeelAdd(x, 12, 4);
    PeelFour(x);
    PeelFour(Peel(x, 4));
    PeelFour(Peel(x, 8));
    PeelFour(Peel(x, 12));
    HalfAll(x);
  }

  lemma ParityHalf(x: bv16)
    ensures Parity(x) == (LowBit(x) != Parity(Half(x)))
  {
    hide LowBit, Half;
    LowParityLast(Half(x), 15);
    PeelAll(x);
    assert !LowBit(0) by {
      LowBitZero();
    }
  }

  lemma LowBitZero()
    ensures !LowBit(0)
  {
  }

  lemma ShiftCases(c: bv16)
    ensures Shift(c) == if LowBit(c) then Xor(Half(c), 0xA001) else Half(c)
  {
  }

  lemma PolynomialParity()
    ensures Parity(0xA001)
  {
    assert LowParity(0xA, 4) == false;
    assert LowParity(0xA00, 12) == false;
  }

  lemma SeedParity()
    ensures !Parity(SEED)
  {
    assert LowParity(0xF, 4) == false;
    assert LowParity(0xFF, 8) == false;
    assert LowParity(0xFFF, 12) == false;
  }

  lemma {:induction false} ZeroParity(n: nat)
    ensures !LowParity(0, n)
    decreases n
  {
    if n > 0 {
      assert Half(0) == 0;
      ZeroParity(n - 1);
    }
  }

  lemma FlagParity(b: bool)
    ensures Parity(Flag(b)) == b
  {
    assert Half(Flag(b)) == 0;
    ZeroParity(15);
  }

  lemma ParityShift(c: bv16)
    ensures Parity(Shift(c)) == Parity(c)
  {
    hide LowBit, Half, Shift, Xor, LowParity;
    ShiftCases(c);
    ParityHalf(c);
    LowParityXor(Half(c), 0xA001, 16);
    PolynomialParity();
  }

  lemma {:induction false} ParityFold(c: bv16, bits: seq<bool>)
    ensures Parity(BitFold(c, bits)) == (Parity(c) != Odd(Ones(bits)))
    decreases bits
  {
    hide Shift, Xor, LowParity, Flag;
    if bits != [] {
      var d := Xor(c, Flag(bits[0]));
      LowParityXor(c, Flag(bits[0]), 16);
      FlagParity(bits[0]);
      ParityShift(d);
      ParityFold(Shift(d), bits[1..]);
    }
  }

  // ---------------------------------------------------------------------------
  // Bursts
  // ---------------------------------------------------------------------------

  function Double(x: bv16): bv16 {
    x << 1
  }

  /** The register value whose bits are `w`. */
  function Assemble(w: seq<bool>): bv16
    decreases w
  {
    if w == [] then 0 else Xor(Double(Assemble(w[1..])), Flag(w[0]))
  }

  predicate TopClear(x: bv16) {
    x & 0x8000 == 0
  }

  lemma ThreeHalves(x: bv16)
    requires x >> 1 >> 1 >> 1 >> 1 >> 1 >> 1 >> 1 >> 1 >> 1 >> 1 >> 1 >> 1 >> 1 >> 1 >> 1 == 0
    ensures TopClear(x)
  {
  }

  lemma PeelZero(n: nat)
    ensures Peel(0, n) == 0
    decreases n
  {
    if n > 0 {
      assert Half(0) == 0;
      PeelZero(n - 1);
    }
  }

  lemma PeelThree(x: bv16)
    ensures Peel(x, 3) == x >> 1 >> 1 >> 1
  {
    assert Peel(x, 3) == Peel(Half(Half(x)), 1);
  }

  lemma PeelTop(x: bv16, n: nat)
    requires n <= 15 && Peel(x, n) == 0
    ensures TopClear(x)
  {
    hide Peel, TopClear;
    PeelAdd(x, n, 15 - n);
    PeelZero(15 - n);
    PeelAdd(x, 4, 4);
    PeelAdd(x, 8, 4);
    PeelAdd(x, 12, 3);
    PeelFour(x);
    PeelFour(Peel(x, 4));
    PeelFour(Peel(x, 8));
    PeelThree(Peel(x, 12));
    ThreeHalves(x);
  }

  lemma HalfOfDouble(x: bv16, b: bool)
    requires TopClear(x)
    ensures Half(Xor(Double(x), Flag(b))) == x
  {
    hide Xor, Half, Double, TopClear;
    HalfXor(Double(x), Flag(b));
    HalfDouble(x);
    HalfFlag(b);
    XorZero(x);
  }

  lemma HalfDouble(x: bv16)
    requires TopClear(x)
    ensures Half(Double(x)) == x
  {
  }

  lemma HalfFlag(b: bool)
    ensures Half(Flag(b)) == 0
  {
  }

  lemma LowOfDouble(x: bv16, b: bool)
    ensures LowBit(Xor(Double(x), Flag(b))) == b
  {
  }

  lemma ShiftOfDouble(x: bv16)
    requires TopClear(x)
    ensures Shift(Double(x)) == x
  {
  }

  lemma {:induction false} AssembleFits(w: seq<bool>)
    requires |w| <= 16
    ensures Peel(Assemble(w), |w|) == 0
    ensures w != [] ==> TopClear(Assemble(w[1..]))
    decreases w
  {
    hide Xor, Flag, Double, TopClear, Half;
    if w != [] {
      AssembleFits(w[1..]);
      PeelTop(Assemble(w[1..]), |w| - 1);
      HalfOfDouble(Assemble(w[1..]), w[0]);
    }
  }

  lemma {:induction false} AssembleZero(w: seq<bool>)
    requires |w| <= 16 && Assemble(w) == 0
    ensures forall i | 0 <= i < |w| :: !w[i]
    decreases w
  {
    hide Xor, Flag, Double, TopClear, Half, LowBit;
    if w != [] {
      AssembleFits(w);
      HalfOfDouble(Assemble(w[1..]), w[0]);
      LowOfDouble(Assemble(w[1..]), w[0]);
      assert Half(0) == 0 && !LowBit(0) by {
        LowBitZero();
        HalfZero();
      }
      AssembleZero(w[1..]);
      assert forall i | 1 <= i < |w| :: w[i] == w[1..][i - 1];
    }
  }

  lemma HalfZero()
    ensures Half(0) == 0
  {
  }

  /** The only register that a window of at most 16 bits clears is the window itself. */
  lemma {:induction false} WindowBack(c: bv16, w: seq<bool>)
    requires |w| <= 16 && BitFold(c, w) == 0
    ensures c == Assemble(w)
    decreases w
  {
    hide Xor, Flag, Double, TopClear, Shift;
    if w != [] {
      var rest := Assemble(w[1..]);
      WindowBack(Shift(Xor(c, Flag(w[0]))), w[1..]);
      AssembleFits(w);
      ShiftOfDouble(rest);
      ShiftInjective(Xor(c, Flag(w[0])), Double(rest));
      XorAssociates(c, Flag(w[0]), Flag(w[0]));
      XorSelf(Flag(w[0]));
      XorZero(c);
    }
  }

  predicate Clear(bits: seq<bool>) {
    forall i | 0 <= i < |bits| :: !bits[i]
  }

  lemma {:induction false} ClearFold(c: bv16, bits: seq<bool>)
    requires Clear(bits)
    ensures BitFold(c, bits) == ShiftN(c, |bits|)
    decreases bits
  {
    hide Xor, Shift;
    if bits != [] {
      assert Flag(bits[0]) == 0;
      XorZero(c);
      ClearFold(Shift(c), bits[1..]);
    }
  }

  /** Every set bit lies in a window of 16 consecutive bits. */
  predicate Burst(bits: seq<bool>, p: nat) {
    forall i | 0 <= i < |bits| && bits[i] :: p <= i < p + 16
  }

  lemma BurstBits(bits: seq<bool>, p: nat)
    requires Burst(bits, p) && BitFold(0, bits) == 0
    ensures Clear(bits)
  {
    hide BitFold, ShiftN, Assemble;
    var lo := if p < |bits| then p else |bits|;
    var hi := if p + 16 < |bits| then p + 16 else |bits|;
    var before, window, after := bits[..lo], bits[lo..hi], bits[hi..];
    assert bits == before + (window + after);
    BitFoldAppend(0, before, window + after);
    BitFoldAppend(0, window, after);
    ClearFold(0, before);
    ShiftNZero(|before|);
    ClearFold(BitFold(0, window), after);
    ShiftNZero(|after|);
    ShiftNInjective(BitFold(0, window), 0, |after|);
    WindowBack(0, window);
    AssembleZero(window);
    forall i | 0 <= i < |bits|
      ensures !bits[i]
    {
      if lo <= i < hi {
        assert !window[i - lo];
      }
    }
  }

  // ---------------------------------------------------------------------------
  // Damaged frames
  // ---------------------------------------------------------------------------

  function Syndrome(error: seq<byte>): bv16 {
    Fold(0, error)
  }

  /** What the receiver checks: the last two octets are the checksum of the rest. */
  predicate Checks(frame: seq<byte>)
    requires |frame| >= 2
  {
    Crc(frame[..|frame| - 2]) == TailWord(frame[|frame| - 2..])
  }

  lemma ChecksIsResidue(frame: seq<byte>)
    requires |frame| >= 2
    ensures Checks(frame) <==> Fold(SEED, frame) == 0
  {
    hide Fold, TailWord;
    var n := |frame| - 2;
    Residue(frame[..n], frame[n..]);
    assert frame == frame[..n] + frame[n..];
  }

  /** A damaged good frame still passes exactly when the damage has syndrome zero. */
  lemma DamagePasses(frame: seq<byte>, error: seq<byte>)
    requires |frame| == |error| >= 2 && Checks(frame)
    ensures Checks(XorBytes(frame, error)) <==> Syndrome(error) == 0
  {
    hide Fold, Xor, XorBytes, Checks;
    ChecksIsResidue(frame);
    ChecksIsResidue(XorBytes(frame, error));
    FoldLinear(SEED, 0, frame, error);
    XorZero(SEED);
    XorZero(Syndrome(error));
  }

  /** The parity of the register is the parity of all message bits. */
  lemma RegisterParity(data: seq<byte>)
    ensures Parity(Crc(data)) == Odd(Ones(MessageBits(data)))
  {
    hide Fold, BitFold, Ones, MessageBits, LowParity;
    BitSerial(SEED, data);
    ParityFold(SEED, MessageBits(data));
    SeedParity();
  }

  /** Every frame that passes has an even number of set bits. */
  lemma FrameParity(frame: seq<byte>)
    requires |frame| >= 2 && Checks(frame)
    ensures !Odd(Ones(MessageBits(frame)))
  {
    hide Fold, BitFold, Ones, MessageBits, LowParity, Checks;
    ChecksIsResidue(frame);
    BitSerial(SEED, frame);
    ParityFold(SEED, MessageBits(frame));
    SeedParity();
    ZeroParity(16);
  }

  /** Any odd number of flipped bits is found. */
  lemma OddDamageFound(error: seq<byte>)
    requires Odd(Ones(MessageBits(error)))
    ensures Syndrome(error) != 0
  {
    hide Fold, BitFold, Ones, MessageBits, LowParity;
    BitSerial(0, error);
    ParityFold(0, MessageBits(error));
    ZeroParity(16);
  }

  /** Any damage confined to 16 consecutive bits is found. */
  lemma BurstDamageFound(error: seq<byte>, p: nat)
    requires Burst(MessageBits(error), p)
    requires exists k | 0 <= k < |error| :: error[k] != 0
    ensures Syndrome(error) != 0
  {
    hide Fold, BitFold, Bit;
    if Syndrome(error) == 0 {
      BitSerial(0, error);
      var bits := MessageBits(error);
      BurstBits(bits, p);
      var k :| 0 <= k < |error| && error[k] != 0;
      forall j: nat | j < 8
        ensures Bit(error[k], j) == Bit(0, j)
      {
        assert !bits[8 * k + j];
        ZeroHasNoBits(j);
      }
      BitExtensional(error[k], 0);
    }
  }

  /** Sixteen is the most: this 17-bit burst, the generator itself, goes unseen. */
  lemma SeventeenBitsEscape()
    ensures Syndrome([0x03, 0x40, 0x01]) == 0
  {
    hide ByteStep;
    var e := [0x03, 0x40, 0x01];
    assert e[1..] == [0x40, 0x01] && e[1..][1..] == [0x01];
    GeneratorSteps();
    assert Fold(0x1, [0x01]) == ByteStep(0x1, 0x01);
    assert Fold(0x140, [0x40, 0x01]) == Fold(0x1, [0x01]);
  }

  lemma GeneratorSteps()
    ensures ByteStep(0, 0x03) == 0x140
    ensures ByteStep(0x140, 0x40) == 0x1
    ensures ByteStep(0x1, 0x01) == 0
  {
    assert Octet(0x03) == 0x03;
    assert Octet(0x40) == 0x40;
    assert Octet(0x01) == 0x01;
  }
}
