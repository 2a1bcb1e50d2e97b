/** Coil states packed into octets, first coil in the lowest bit, as in section 6.1 of
    "MODBUS Application Protocol Specification V1.1b3". */
module Packing {
  import opened Bytes

  function OctetsFor(n: nat): nat {
    (n + 7) / 8
  }

  /** Bit `i` of a packed field. */
  predicate BitOf(bs: seq<byte>, i: nat)
    requires i < 8 * |bs|
  {
    Bit(bs[i / 8], i % 8)
  }

  /** The octet holding coils `8k .. 8k+8`, built as the program does, one bit at a time. */
  function PackOctet(bits: seq<bool>, k: nat, j: nat): byte
    requires j <= 8
    decreases j
  {
    if j == 0 then 0
    else if 8 * k + j - 1 < |bits| && bits[8 * k + j - 1] then SetBit(PackOctet(bits, k, j - 1), j - 1)
    else PackOctet(bits, k, j - 1)
  }

  function Pack(bits: seq<bool>): (bs: seq<byte>)
    ensures |bs| == OctetsFor(|bits|)
  {
    seq(OctetsFor(|bits|), k requires 0 <= k < OctetsFor(|bits|) => PackOctet(bits, k, 8))
  }

  function Unpack(bs: seq<byte>, n: nat): (bits: seq<bool>)
    requires n <= 8 * |bs|
    ensures |bits| == n
  {
    seq(n, i requires 0 <= i < n => BitOf(bs, i))
  }

  lemma {:induction false} PackOctetBits(bits: seq<bool>, k: nat, j: nat, i: nat)
    requires j <= 8 && i < 8
    ensures Bit(PackOctet(bits, k, j), i) <==> i < j && 8 * k + i < |bits| && bits[8 * k + i]
    decreases j
  {
    hide Bit, SetBit;
    if j == 0 {
      ZeroHasNoBits(i);
    } else {
      PackOctetBits(bits, k, j - 1, i);
      SetBitBits(PackOctet(bits, k, j - 1), j - 1, i);
    }
  }

  /** Each packed bit is the coil in its place; the padding is zero. */
  lemma PackBit(bits: seq<bool>, i: nat)
    requires i < 8 * OctetsFor(|bits|)
    ensures BitOf(Pack(bits), i) <==> i < |bits| && bits[i]
  {
    hide Bit, PackOctet;
    PackOctetBits(bits, i / 8, 8, i % 8);
  }

  /** Past the last coil nothing more is set. */
  lemma {:induction false} PackOctetDone(bits: seq<bool>, k: nat, j: nat, j': nat)
    requires j <= j' <= 8 && |bits| <= 8 * k + j
    ensures PackOctet(bits, k, j') == PackOctet(bits, k, j)
    decreases j' - j
  {
    if j < j' {
      PackOctetDone(bits, k, j, j' - 1);
    }
  }

  lemma UnpackPack(bits: seq<bool>)
    ensures Unpack(Pack(bits), |bits|) == bits
  {
    hide Pack, BitOf;
    forall i | 0 <= i < |bits|
      ensures Unpack(Pack(bits), |bits|)[i] == bits[i]
    {
      PackBit(bits, i);
    }
  }

  predicate SameBitsOf(a: seq<byte>, b: seq<byte>)
    requires |a| == |b|
  {
    forall i: nat | i < 8 * |a| :: BitOf(a, i) == BitOf(b, i)
  }

  lemma PackedExtensional(a: seq<byte>, b: seq<byte>)
    requires |a| == |b| && SameBitsOf(a, b)
    ensures a == b
  {
    hide Bit;
    forall k | 0 <= k < |a|
      ensures a[k] == b[k]
    {
      forall j: nat | j < 8
        ensures Bit(a[k], j) == Bit(b[k], j)
      {
        assert BitOf(a, 8 * k + j) == BitOf(b, 8 * k + j);
      }
      BitExtensional(a[k], b[k]);
    }
  }

  /** The `m` low bits of an octet. */
  function LowBits(b: byte, m: nat): byte
    requires m < 8
  {
    (Octet(b) & (((1 as bv8) << m) - 1)) as nat
  }

  lemma LowOctetBits(o: bv8, m: nat, j: nat)
    requires m < 8 && j < 8
    ensures ((o & (((1 as bv8) << m) - 1)) >> j) & 1 == 1 <==> j < m && (o >> j) & 1 == 1
  {
  }

  lemma LowBitsBits(b: byte, m: nat, j: nat)
    requires m < 8 && j < 8
    ensures Bit(LowBits(b, m), j) <==> j < m && Bit(b, j)
  {
    hide Octet;
    OctetOfNat(Octet(b) & (((1 as bv8) << m) - 1));
    LowOctetBits(Octet(b), m, j);
  }

  /** A packed field of `n` coils with the unused high bits of its last octet cleared. */
  function ClearPadding(bs: seq<byte>, n: nat): (r: seq<byte>)
    requires n > 0 && |bs| == OctetsFor(n)
    ensures |r| == |bs|
  {
    if n % 8 == 0 then bs else bs[..|bs| - 1] + [LowBits(bs[|bs| - 1], n % 8)]
  }

  lemma ClearPaddingBit(bs: seq<byte>, n: nat, i: nat)
    requires n > 0 && |bs| == OctetsFor(n) && i < 8 * |bs|
    ensures BitOf(ClearPadding(bs, n), i) <==> i < n && BitOf(bs, i)
  {
    hide Bit, LowBits;
    if n % 8 != 0 && i / 8 == |bs| - 1 {
      LowBitsBits(bs[i / 8], n % 8, i % 8);
    }
  }

  /** Reading packed coils back loses only the padding. */
  lemma PackUnpack(bs: seq<byte>, n: nat)
    requires n > 0 && |bs| == OctetsFor(n)
    ensures Pack(Unpack(bs, n)) == ClearPadding(bs, n)
  {
    hide BitOf, Pack, ClearPadding;
    var a, b := Pack(Unpack(bs, n)), ClearPadding(bs, n);
    forall i: nat | i < 8 * |a|
      ensures BitOf(a, i) == BitOf(b, i)
    {
      PackBit(Unpack(bs, n), i);
      ClearPaddingBit(bs, n, i);
    }
    PackedExtensional(a, b);
  }
}
