/** The four copy loops between register tables and message octets, which every engine
    of the program contains. */
module Loops {
  import opened Bytes
  import opened Packing
  import opened Engine

  /** How many bits of octet `k` the first `i` coils fill. */
  ghost function Filled(i: nat, k: nat): (j: nat)
    ensures j <= 8
  {
    if i <= 8 * k then 0 else if i < 8 * k + 8 then i - 8 * k else 8
  }

  lemma FilledStep(i: nat, k: nat)
    ensures Filled(i + 1, k) == if k == i / 8 then Filled(i, k) + 1 else Filled(i, k)
    ensures k == i / 8 ==> Filled(i, k) == i % 8
  {
  }

  lemma PackOctetStep(bits: seq<bool>, i: nat)
    requires i < |bits|
    ensures PackOctet(bits, i / 8, i % 8 + 1)
         == if bits[i] then SetBit(PackOctet(bits, i / 8, i % 8), i % 8) else PackOctet(bits, i / 8, i % 8)
  {
    hide SetBit;
    assert 8 * (i / 8) + i % 8 == i;
  }

  lemma FilledAll(bits: seq<bool>, k: nat)
    ensures PackOctet(bits, k, Filled(|bits|, k)) == PackOctet(bits, k, 8)
  {
    hide PackOctet;
    if Filled(|bits|, k) < 8 {
      PackOctetDone(bits, k, Filled(|bits|, k), 8);
    }
  }

  /** The packing loop of the bit reads. */
  method PackedBits(src: array<bool>, start: nat, qty: nat) returns (res: array<byte>)
    requires start + qty <= src.Length
    ensures fresh(res) && res[..] == Pack(src[start..start + qty])
  {
    hide PackOctet, SetBit, Filled;
    ghost var bits := src[start..start + qty];
    res := new byte[(qty + 7) / 8](_ => 0);
    assert forall k | 0 <= k < res.Length :: PackOctet(bits, k, Filled(0, k)) == 0 by {
      forall k | 0 <= k < res.Length
        ensures PackOctet(bits, k, Filled(0, k)) == 0
      {
        NothingPacked(bits, k);
      }
    }
    for i := 0 to qty
      invariant forall k | 0 <= k < res.Length :: res[k] == PackOctet(bits, k, Filled(i, k))
    {
      assert bits[i] == src[start + i];
      forall k | 0 <= k < res.Length
        ensures Filled(i + 1, k) == if k == i / 8 then i % 8 + 1 else Filled(i, k)
        ensures k == i / 8 ==> Filled(i, k) == i % 8
      {
        FilledStep(i, k);
      }
      PackOctetStep(bits, i);
      if src[start + i] {
        res[i / 8] := SetBit(res[i / 8], i % 8);
      }
    }
    forall k | 0 <= k < res.Length
      ensures res[k] == PackOctet(bits, k, 8)
    {
      FilledAll(bits, k);
    }
  }

  lemma NothingPacked(bits: seq<bool>, k: nat)
    ensures PackOctet(bits, k, Filled(0, k)) == 0
  {
  }

  /** The encoding loop of the register reads. */
  method BigEndianWords(src: array<word>, start: nat, qty: nat) returns (res: array<byte>)
    requires start + qty <= src.Length
    ensures fresh(res) && res[..] == WordBytes(src[start..start + qty])
  {
    hide BigEndian;
    ghost var words := src[start..start + qty];
    res := new byte[2 * qty](_ => 0);
    for i := 0 to qty
      invariant forall k | 0 <= k < 2 * i :: res[k] == WordBytes(words)[k]
    {
      var octets := BigEndian(src[start + i]);
      res[2 * i], res[2 * i + 1] := octets[0], octets[1];
    }
  }

  /** The storing loop of the multiple coil write; false is Go's panic when the payload ends early. */
  method StoreBits(dst: array<bool>, start: nat, qty: nat, payload: seq<byte>) returns (done: bool)
    requires start + qty <= dst.Length
    modifies dst
    ensures done <==> qty <= 8 * |payload|
    ensures dst[..] == Overwrite(old(dst[..]), start, Unpack(payload, if done then qty else 8 * |payload|))
  {
    hide BitOf, Bit;
    for i := 0 to qty
      invariant i <= 8 * |payload|
      invariant forall a | 0 <= a < dst.Length ::
                  dst[a] == if start <= a < start + i then BitOf(payload, a - start) else old(dst[a])
    {
      if i / 8 >= |payload| {
        assert i == 8 * |payload|;
        return false;
      }
      var bit := StoredBit(payload, i);
      dst[start + i] := bit;
    }
    return true;
  }

  /** Go's `(payload[i/8] >> (i % 8)) & 0x01 == 0x01`. */
  method StoredBit(payload: seq<byte>, i: nat) returns (bit: bool)
    requires i < 8 * |payload|
    ensures bit == BitOf(payload, i)
  {
    bit := (Octet(payload[i / 8]) >> (i % 8)) & 0x01 == 0x01;
  }

  /** The storing loop of the multiple register write. */
  method StoreWords(dst: array<word>, start: nat, qty: nat, payload: seq<byte>)
    requires start + qty <= dst.Length && |payload| == 2 * qty
    modifies dst
    ensures dst[..] == Overwrite(old(dst[..]), start, BytesWords(payload))
  {
    for i := 0 to qty
      invariant forall a | 0 <= a < dst.Length ::
                  dst[a] == if start <= a < start + i then BytesWords(payload)[a - start] else old(dst[a])
    {
      dst[start + i] := WordOf(payload[2 * i], payload[2 * i + 1]);
    }
  }
}
