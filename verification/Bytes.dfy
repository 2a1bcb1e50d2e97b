/** Octets, 16-bit words and the bits inside them.

    Octets and words are numbers, so that addresses and quantities decoded from a
    message are ordinary integers.  `Octet` gives the bit-vector view that the
    checksum and the coil packing work on. */
module Bytes {
  type byte = n: nat | n < 0x100
  type word = n: nat | n < 0x1_0000

  // ---------------------------------------------------------------------------
  // Words
  // ---------------------------------------------------------------------------

  /** Go's `binary.BigEndian.Uint16`. */
  function WordOf(hi: byte, lo: byte): word {
    hi * 0x100 + lo
  }

  lemma Concat3(a: seq<byte>, b: seq<byte>, c: seq<byte>)
    ensures a + (b + c) == a + b + c
  {
  }

  /** Go's `binary.BigEndian.PutUint16`. */
  function BigEndian(w: word): (bs: seq<byte>)
    ensures |bs| == 2 && WordOf(bs[0], bs[1]) == w
  {
    [w / 0x100, w % 0x100]
  }

  lemma BigEndianOfWord(hi: byte, lo: byte)
    ensures BigEndian(WordOf(hi, lo)) == [hi, lo]
  {
  }

  /** The register words as they travel: high octet first. */
  function WordBytes(ws: seq<word>): (bs: seq<byte>)
    ensures |bs| == 2 * |ws|
  {
    seq(2 * |ws|, k requires 0 <= k < 2 * |ws| => BigEndian(ws[k / 2])[k % 2])
  }

  function BytesWords(bs: seq<byte>): (ws: seq<word>)
    ensures |ws| == |bs| / 2
  {
    seq(|bs| / 2, k requires 0 <= k < |bs| / 2 => WordOf(bs[2 * k], bs[2 * k + 1]))
  }

  lemma WordBytesAt(ws: seq<word>, k: nat)
    requires k < |ws|
    ensures WordBytes(ws)[2 * k] == BigEndian(ws[k])[0]
    ensures WordBytes(ws)[2 * k + 1] == BigEndian(ws[k])[1]
  {
    hide BigEndian;
  }

  lemma WordsRoundTrip(ws: seq<word>)
    ensures BytesWords(WordBytes(ws)) == ws
  {
    hide WordBytes, BigEndian, WordOf;
    var bs := WordBytes(ws);
    forall k | 0 <= k < |ws|
      ensures BytesWords(bs)[k] == ws[k]
    {
      WordBytesAt(ws, k);
    }
  }

  lemma BytesRoundTrip(bs: seq<byte>)
    requires |bs| % 2 == 0
    ensures WordBytes(BytesWords(bs)) == bs
  {
    var ws := BytesWords(bs);
    forall k | 0 <= k < |bs|
      ensures WordBytes(ws)[k] == bs[k]
    {
      BigEndianOfWord(bs[2 * (k / 2)], bs[2 * (k / 2) + 1]);
    }
  }

  lemma BytesWordsAppend(a: seq<byte>, b: seq<byte>)
    requires |a| % 2 == 0
    ensures BytesWords(a + b) == BytesWords(a) + BytesWords(b)
  {
    var c := a + b;
    forall k | 0 <= k < |c| / 2
      ensures BytesWords(c)[k] == (BytesWords(a) + BytesWords(b))[k]
    {
      if k >= |a| / 2 {
        var j := k - |a| / 2;
        assert c[2 * k] == b[2 * j] && c[2 * k + 1] == b[2 * j + 1];
      }
    }
  }

  // ---------------------------------------------------------------------------
  // Bits of one octet
  // ---------------------------------------------------------------------------

  function Octet(b: byte): bv8 {
    b as bv8
  }

  /** Go's `(b >> j) & 1 == 1`. */
  predicate Bit(b: byte, j: nat)
    requires j < 8
  {
    (Octet(b) >> j) & 1 == 1
  }

  /** Go's `b | 1<<j`. */
  function SetBit(b: byte, j: nat): byte
    requires j < 8
  {
    (Octet(b) | ((1 as bv8) << j)) as nat
  }

  lemma OctetOfNat(o: bv8)
    ensures Octet(o as nat) == o
  {
  }

  lemma Successor(o: bv8)
    requires o < 0xFF
    ensures (o + 1) as nat == o as nat + 1
  {
  }

  lemma {:induction false} SomeOctet(b: byte) returns (o: bv8)
    ensures o as nat == b
  {
    if b == 0 {
      o := 0;
    } else {
      o := SomeOctet(b - 1);
      Successor(o);
      o := o + 1;
    }
  }

  lemma NatOfOctet(b: byte)
    ensures Octet(b) as nat == b
  {
    var o := SomeOctet(b);
    OctetOfNat(o);
  }

  lemma OctetInjective(a: byte, b: byte)
    requires Octet(a) == Octet(b)
    ensures a == b
  {
    NatOfOctet(a);
    NatOfOctet(b);
  }

  lemma SetOctetBit(o: bv8, j: nat, k: nat)
    requires j < 8 && k < 8
    ensures ((o | ((1 as bv8) << j)) >> k) & 1 == 1 <==> (k == j || (o >> k) & 1 == 1)
  {
  }

  lemma SetBitBits(b: byte, j: nat, k: nat)
    requires j < 8 && k < 8
    ensures Bit(SetBit(b, j), k) <==> k == j || Bit(b, k)
  {
    hide Octet;
    OctetOfNat(Octet(b) | ((1 as bv8) << j));
    SetOctetBit(Octet(b), j, k);
  }

  lemma ZeroHasNoBits(k: nat)
    requires k < 8
    ensures !Bit(0, k)
  {
    assert Octet(0) == 0;
  }

  lemma OctetExtensional(a: bv8, b: bv8)
    requires (a >> 0) & 1 == (b >> 0) & 1 && (a >> 1) & 1 == (b >> 1) & 1
    requires (a >> 2) & 1 == (b >> 2) & 1 && (a >> 3) & 1 == (b >> 3) & 1
    requires (a >> 4) & 1 == (b >> 4) & 1 && (a >> 5) & 1 == (b >> 5) & 1
    requires (a >> 6) & 1 == (b >> 6) & 1 && (a >> 7) & 1 == (b >> 7) & 1
    ensures a == b
  {
  }

  lemma OneBit(o: bv8)
    ensures o & 1 == 1 || o & 1 == 0
  {
  }

  lemma SameBit(a: byte, b: byte, j: nat)
    requires j < 8 && Bit(a, j) == Bit(b, j)
    ensures (Octet(a) >> j) & 1 == (Octet(b) >> j) & 1
  {
    hide Octet;
    OneBit(Octet(a) >> j);
    OneBit(Octet(b) >> j);
  }

  predicate SameBits(a: byte, b: byte) {
    forall j: nat | j < 8 :: Bit(a, j) == Bit(b, j)
  }

  lemma BitExtensional(a: byte, b: byte)
    requires SameBits(a, b)
    ensures a == b
  {
    hide Octet, Bit;
    SameBit(a, b, 0);
    SameBit(a, b, 1);
    SameBit(a, b, 2);
    SameBit(a, b, 3);
    SameBit(a, b, 4);
    SameBit(a, b, 5);
    SameBit(a, b, 6);
    SameBit(a, b, 7);
    OctetExtensional(Octet(a), Octet(b));
    OctetInjective(a, b);
  }

  // ---------------------------------------------------------------------------
  // Bits as numbers
  // ---------------------------------------------------------------------------

  function Weight(j: nat): (w: nat)
    requires j < 8
    ensures w > 0
  {
    [1, 2, 4, 8, 16, 32, 64, 128][j]
  }

  /** Bit `j` of an octet, from the number alone. */
  predicate BitSet(b: byte, j: nat)
    requires j < 8
  {
    b / Weight(j) % 2 == 1
  }

  lemma Halved(o: bv8)
    ensures (o >> 1) as nat == o as nat / 2
  {
  }

  lemma LowBitOdd(o: bv8)
    ensures o & 1 == 1 <==> o as nat % 2 == 1
  {
  }

  lemma OneFurther(o: bv8, j: nat)
    requires j < 7
    ensures (o >> j) >> 1 == o >> (j + 1)
  {
  }

  function Shifted(o: bv8, j: nat): nat
    requires j < 8
  {
    (o >> j) as nat
  }

  lemma ShiftHalves(o: bv8, j: nat)
    requires j < 7
    ensures Shifted(o, j + 1) == Shifted(o, j) / 2
  {
    OneFurther(o, j);
    Halved(o >> j);
  }

  lemma Unshifted(o: bv8)
    ensures Shifted(o, 0) == o as nat
  {
  }

  lemma HalvedAgain(x: nat, j: nat)
    requires 1 <= j < 8
    ensures x / Weight(j - 1) / 2 == x / Weight(j)
  {
    if j == 1 {
      assert x / 1 / 2 == x / 2;
    } else if j == 2 {
      assert x / 2 / 2 == x / 4;
    } else if j == 3 {
      assert x / 4 / 2 == x / 8;
    } else if j == 4 {
      assert x / 8 / 2 == x / 16;
    } else if j == 5 {
      assert x / 16 / 2 == x / 32;
    } else if j == 6 {
      assert x / 32 / 2 == x / 64;
    } else {
      assert x / 64 / 2 == x / 128;
    }
  }

  lemma FirstWeight(x: nat)
    ensures x / Weight(0) == x
  {
  }

  lemma {:induction false} ShiftDivides(o: bv8, j: nat)
    requires j < 8
    ensures Shifted(o, j) == o as nat / Weight(j)
    decreases j
  {
    hide Weight, Shifted;
    if j == 0 {
      Unshifted(o);
      FirstWeight(o as nat);
    } else {
      ShiftDivides(o, j - 1);
      ShiftHalves(o, j - 1);
      HalvedAgain(o as nat, j);
    }
  }

  /** The bits that the program tests with shifts are those of the binary number. */
  lemma BitInNumbers(b: byte, j: nat)
    requires j < 8
    ensures Bit(b, j) <==> BitSet(b, j)
  {
    hide Octet, Weight;
    NatOfOctet(b);
    ShiftDivides(Octet(b), j);
    LowBitOdd(Octet(b) >> j);
  }
}
