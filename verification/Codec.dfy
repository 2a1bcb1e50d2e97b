/** Values as registers and registers as values: the conversions of the CSV row writer
    (internal/servermgr/manager.go) and of the collector (internal/collector/client.go). */
module Codec {
  import opened Bytes
  import opened Floats
  import opened Options

  /** The bit pattern of a float32, a uint32 or an int32. */
  type pattern = n: nat | n < 0x1_0000_0000

  // ---------------------------------------------------------------------------
  // Values to registers
  // ---------------------------------------------------------------------------

  function FloatToUint16(v: F64): Option<word> {
    match v
    case Fin(x) => if Round(x) < 0 || Round(x) > 65535 then None else Some(Round(x))
    case _ => None
  }

  /** Two's complement in a register. */
  function FloatToInt16(v: F64): Option<word> {
    match v
    case Fin(x) =>
      if Round(x) < -32768 || Round(x) > 32767 then None
      else Some(if Round(x) < 0 then Round(x) + 0x1_0000 else Round(x))
    case _ => None
  }

  function HighWord(bits: pattern): word {
    bits / 0x1_0000
  }

  function LowWord(bits: pattern): word {
    bits % 0x1_0000
  }

  // ---------------------------------------------------------------------------
  // Registers to values
  // ---------------------------------------------------------------------------

  /** Go's `int16(u)`. */
  function Signed16(u: word): int {
    if u < 0x8000 then u else u - 0x1_0000
  }

  function Signed32(u: pattern): int {
    if u < 0x8000_0000 then u else u - 0x1_0000_0000
  }

  /** Go's `binary.BigEndian.Uint32`. */
  function Uint32(b: seq<byte>): pattern
    requires |b| == 4
  {
    WordOf(b[0], b[1]) * 0x1_0000 + WordOf(b[2], b[3])
  }

  /** `reorder32`; the order is already trimmed and in upper case. */
  function Reorder32(b: seq<byte>, order: string): (out: seq<byte>)
    ensures |out| == if |b| < 4 then |b| else 4
  {
    if |b| < 4 then b
    else if order == "DCBA" then [b[3], b[2], b[1], b[0]]
    else if order == "BADC" then [b[1], b[0], b[3], b[2]]
    else if order == "CDAB" then [b[2], b[3], b[0], b[1]]
    else b[..4]
  }

  datatype Decoded = Value(v: F64) | TooShort | Unsupported

  function Calibrate(raw: F64, scale: F64, offset: F64): F64 {
    Div(Sub(raw, offset), if scale == Fin(0.0) then Fin(1.0) else scale)
  }

  /** The registers that `readPoint` asks for. */
  function Quantity(dataType: string): word {
    if dataType == "float32" || dataType == "uint32" || dataType == "int32" then 2 else 1
  }

  /** `decodeRegisterData`; `widen` turns a float32 pattern into the float64 it denotes. */
  function Decode(data: seq<byte>, dataType: string, order: string, scale: F64, offset: F64, widen: pattern -> F64): Decoded {
    if dataType == "uint16" then
      if |data| < 2 then TooShort
      else Value(Calibrate(Fin(WordOf(data[0], data[1]) as real), scale, offset))
    else if dataType == "int16" then
      if |data| < 2 then TooShort
      else Value(Calibrate(Fin(Signed16(WordOf(data[0], data[1])) as real), scale, offset))
    else if dataType == "float32" then
      if |data| < 4 then TooShort
      else Value(Calibrate(widen(Uint32(Reorder32(data[..4], order))), scale, offset))
    else if dataType == "uint32" then
      if |data| < 4 then TooShort
      else Value(Calibrate(Fin(Uint32(Reorder32(data[..4], order)) as real), scale, offset))
    else if dataType == "int32" then
      if |data| < 4 then TooShort
      else Value(Calibrate(Fin(Signed32(Uint32(Reorder32(data[..4], order))) as real), scale, offset))
    else Unsupported
  }

  /** What the collector makes of a coil or discrete-input reply. */
  predicate DecodeBit(data: seq<byte>) {
    |data| > 0 && Bit(data[0], 0)
  }

  // ---------------------------------------------------------------------------
  // 32-bit values
  // ---------------------------------------------------------------------------

  /** For every order string, reordering twice gives the octets back. */
  lemma ReorderInvolution(b: seq<byte>, order: string)
    requires |b| == 4
    ensures Reorder32(Reorder32(b, order), order) == b
  {
  }

  /** Where the octet at position `i` comes from. */
  function Place(order: string, i: nat): (p: nat)
    requires i < 4
    ensures p < 4
  {
    if order == "DCBA" then 3 - i
    else if order == "BADC" then if i % 2 == 0 then i + 1 else i - 1
    else if order == "CDAB" then (i + 2) % 4
    else i
  }

  /** Reordering is a permutation of the octets, and one that undoes itself. */
  lemma ReorderPermutes(b: seq<byte>, order: string, i: nat)
    requires |b| == 4 && i < 4
    ensures Reorder32(b, order)[i] == b[Place(order, i)] && Place(order, Place(order, i)) == i
  {
  }

  lemma WordInjective(a: byte, b: byte, c: byte, d: byte)
    requires WordOf(a, b) == WordOf(c, d)
    ensures a == c && b == d
  {
    BigEndianOfWord(a, b);
    BigEndianOfWord(c, d);
  }

  lemma Uint32Injective(a: seq<byte>, b: seq<byte>)
    requires |a| == |b| == 4 && Uint32(a) == Uint32(b)
    ensures a == b
  {
    hide WordOf;
    WordInjective(a[0], a[1], b[0], b[1]);
    WordInjective(a[2], a[3], b[2], b[3]);
  }

  /** The four octets that two registers holding a 32-bit value travel as. */
  function PatternBytes(bits: pattern): (bs: seq<byte>)
    ensures |bs| == 4
  {
    WordBytes([HighWord(bits), LowWord(bits)])
  }

  lemma PatternBytesUint32(bits: pattern)
    ensures Uint32(PatternBytes(bits)) == bits
  {
    hide WordBytes, WordOf, HighWord, LowWord;
    var ws: seq<word> := [HighWord(bits), LowWord(bits)];
    WordBytesAt(ws, 0);
    WordBytesAt(ws, 1);
    WordsJoin(bits);
  }

  lemma WordsJoin(bits: pattern)
    ensures HighWord(bits) * 0x1_0000 + LowWord(bits) == bits
  {
  }

  /** A pattern stored high word first is decoded as itself by an order exactly when that order
      leaves its octets in place; ABCD, and any unknown order, always does. */
  lemma PatternRoundTrip(bits: pattern, order: string)
    ensures Uint32(Reorder32(PatternBytes(bits), order)) == bits <==> Reorder32(PatternBytes(bits), order) == PatternBytes(bits)
    ensures order != "DCBA" && order != "BADC" && order != "CDAB" ==> Uint32(Reorder32(PatternBytes(bits), order)) == bits
  {
    hide PatternBytes, Uint32;
    PatternBytesUint32(bits);
    var bs := PatternBytes(bits);
    assert bs[..4] == bs;
    if Uint32(Reorder32(bs, order)) == bits {
      Uint32Injective(Reorder32(bs, order), bs);
    }
  }

  /** The numbers of an integer data type. */
  predicate InType(n: int, dataType: string) {
    || (dataType == "uint16" && 0 <= n < 0x1_0000)
    || (dataType == "int16" && -0x8000 <= n < 0x8000)
    || (dataType == "uint32" && 0 <= n < 0x1_0000_0000)
    || (dataType == "int32" && -0x8000_0000 <= n < 0x8000_0000)
  }

  /** The registers holding an integer in two's complement, high word first, as octets. */
  function IntegerBytes(n: int, dataType: string): seq<byte> {
    if Quantity(dataType) == 1 then WordBytes([n % 0x1_0000]) else PatternBytes(n % 0x1_0000_0000)
  }

  /** Every integer of every integer type, its octets sent in any order, is decoded under that order as
      itself and then calibrated. */
  lemma IntegersDecode(n: int, dataType: string, order: string, scale: F64, offset: F64, widen: pattern -> F64)
    requires InType(n, dataType)
    ensures var sent := if Quantity(dataType) == 1 then IntegerBytes(n, dataType) else Reorder32(IntegerBytes(n, dataType), order);
            Decode(sent, dataType, order, scale, offset, widen) == Value(Calibrate(Fin(n as real), scale, offset))
  {
    hide Calibrate, Reorder32, Uint32, PatternBytes, WordBytes;
    SignedRoundTrip(n);
    if Quantity(dataType) == 1 {
      var w := n % 0x1_0000;
      WordsRoundTrip([w]);
      assert BytesWords(WordBytes([w]))[0] == w;
    } else {
      var bs := PatternBytes(n % 0x1_0000_0000);
      PatternBytesUint32(n % 0x1_0000_0000);
      ReorderInvolution(bs, order);
      assert Reorder32(bs, order)[..4] == Reorder32(bs, order);
    }
  }

  /** Every float32 pattern likewise. */
  lemma PatternsDecode(bits: pattern, order: string, scale: F64, offset: F64, widen: pattern -> F64)
    ensures Decode(Reorder32(PatternBytes(bits), order), "float32", order, scale, offset, widen)
         == Value(Calibrate(widen(bits), scale, offset))
  {
    hide Calibrate, Reorder32, Uint32, PatternBytes;
    var bs := PatternBytes(bits);
    PatternBytesUint32(bits);
    ReorderInvolution(bs, order);
    assert Reorder32(bs, order)[..4] == Reorder32(bs, order);
  }

  /** The octets of a reply as a number: the byte order says which octet is the highest, and an unknown
      order counts as ABCD. */
  function Unsigned32(b: seq<byte>, order: string): int
    requires |b| >= 4
  {
    var x: int, y: int, z: int, w: int := b[0], b[1], b[2], b[3];
    if order == "DCBA" then 16777216 * w + 65536 * z + 256 * y + x
    else if order == "BADC" then 16777216 * y + 65536 * x + 256 * w + z
    else if order == "CDAB" then 16777216 * z + 65536 * w + 256 * x + y
    else 16777216 * x + 65536 * y + 256 * z + w
  }

  lemma Uint32OfOrder(b: seq<byte>, order: string)
    requires |b| >= 4
    ensures Uint32(Reorder32(b[..4], order)) == Unsigned32(b, order)
  {
  }

  /** De-calibration of a finite number: a scale of zero counts as one. */
  lemma CalibrateNumber(x: real, scale: real, offset: real)
    ensures Calibrate(Fin(x), Fin(scale), Fin(offset)) == Fin(if scale == 0.0 then x - offset else (x - offset) / scale)
  {
  }

  /** NaN stays NaN, and an infinity has the sign that the scale gives it. */
  lemma CalibrateSpecial(raw: F64, scale: F64, offset: F64)
    requires !(raw.Fin? && scale.Fin? && offset.Fin?)
    ensures raw.NaN? || scale.NaN? || offset.NaN? ==> Calibrate(raw, scale, offset).NaN?
    ensures raw.Inf? && scale.Fin? && offset.Fin? ==> Calibrate(raw, scale, offset) == Inf(raw.negative != (scale.x < 0.0))
    ensures raw.Fin? && scale.Inf? && offset.Fin? ==> Calibrate(raw, scale, offset) == Fin(0.0)
    ensures raw.Fin? && scale.Fin? && offset.Inf? ==> Calibrate(raw, scale, offset) == Inf(offset.negative == (scale.x < 0.0))
    ensures raw.Inf? && offset.Inf? && raw.negative == offset.negative ==> Calibrate(raw, scale, offset).NaN?
    ensures !raw.NaN? && (raw.Inf? || offset.Inf?) && scale.Inf? ==> Calibrate(raw, scale, offset).NaN?
  {
  }

  /** `decodeRegisterData` on the octets alone, for every data type and every byte order. */
  lemma DecodeOnOctets(data: seq<byte>, dataType: string, order: string, scale: F64, offset: F64, widen: pattern -> F64)
    ensures var d := Decode(data, dataType, order, scale, offset, widen);
            if dataType == "uint16" || dataType == "int16" then
              if |data| < 2 then d == TooShort
              else
                var n: int := 256 * (data[0] as int) + data[1];
                d == Value(Calibrate(Fin((if dataType == "int16" && n >= 32768 then n - 65536 else n) as real), scale, offset))
            else if dataType == "float32" || dataType == "uint32" || dataType == "int32" then
              if |data| < 4 then d == TooShort
              else
                var n := Unsigned32(data, order);
                && 0 <= n < 4294967296
                && d == Value(Calibrate(
                          if dataType == "float32" then widen(n)
                          else Fin((if dataType == "int32" && n >= 2147483648 then n - 4294967296 else n) as real), scale, offset))
            else d == Unsupported
  {
    hide Calibrate, Reorder32, Uint32, Unsigned32;
    if |data| >= 4 {
      Uint32OfOrder(data, order);
    }
  }

  /** The registers asked for are just enough for the data type. */
  lemma QuantitySuffices(words: seq<word>, dataType: string, order: string, scale: F64, offset: F64, widen: pattern -> F64)
    ensures var d := Decode(WordBytes(words), dataType, order, scale, offset, widen);
            d.TooShort? <==> !d.Unsupported? && |words| < Quantity(dataType)
  {
    hide Calibrate, Reorder32, Uint32, WordOf;
  }

  /** A 32-bit value in two registers, high word in the first. */
  lemma WordsOnNumbers(bits: pattern, hi: word, lo: word)
    ensures HighWord(bits) == hi && LowWord(bits) == lo <==> bits == 65536 * hi + lo
  {
  }

  // ---------------------------------------------------------------------------
  // 16-bit values
  // ---------------------------------------------------------------------------

  /** Two's complement: `Signed16` and `Signed32` undo the truncation of a signed number. */
  lemma SignedRoundTrip(n: int)
    ensures -0x8000 <= n < 0x8000 ==> Signed16(n % 0x1_0000) == n
    ensures -0x8000_0000 <= n < 0x8000_0000 ==> Signed32(n % 0x1_0000_0000) == n
  {
  }

  lemma Signed16RoundTrip(v: F64)
    requires FloatToInt16(v).Some?
    ensures Signed16(FloatToInt16(v).value) == Round(v.x)
  {
  }

  lemma QuotientBound(d: real, s: real)
    requires s != 0.0 && Abs(d * s) <= 0.5
    ensures Abs(d) <= 1.0 / (2.0 * Abs(s))
  {
    var a := Abs(s);
    assert Abs(d) * a <= 0.5 by {
      if d < 0.0 {
        if s < 0.0 {
          assert d * s == (-d) * (-s);
        } else {
          assert d * s == -((-d) * s);
        }
      } else if s < 0.0 {
        assert d * s == -(d * (-s));
      }
    }
    Divide(Abs(d), a);
  }

  lemma Divide(d: real, a: real)
    requires a > 0.0 && d * a <= 0.5
    ensures d <= 1.0 / (2.0 * a)
  {
    var q := 1.0 / (2.0 * a);
    assert q * (2.0 * a) == 1.0;
    assert q * a == 0.5;
    if d > q {
      assert d * a > q * a;
    }
  }

  /** De-calibrating the rounded register value gives the original within half a unit of scale. */
  lemma CalibrationError(x: real, scale: real, offset: real, scaled: real)
    requires scale != 0.0 && scaled == x * scale + offset
    ensures Abs((Round(scaled) as real - offset) / scale - x) <= 1.0 / (2.0 * Abs(scale))
  {
    hide Round;
    var r := Round(scaled) as real;
    var v := (r - offset) / scale;
    RoundIsNearest(scaled);
    assert v * scale == r - offset;
    assert (v - x) * scale == r - scaled;
    assert Abs((v - x) * scale) == Distance(Round(scaled), scaled);
    QuotientBound(v - x, scale);
  }
}
