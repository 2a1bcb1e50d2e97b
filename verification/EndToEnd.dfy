/** From a CSV value through the registers and the wire to the collected value. */
module EndToEnd {
  import opened Bytes
  import opened Packing
  import opened Floats
  import opened Codec
  import opened Engine
  import opened EngineLaws
  import opened RowWriter
  import opened Options

  function TableOf(regType: string): Table {
    if regType == "holding" then Holding else Inputs
  }

  function ReadFunction(regType: string): byte {
    if regType == "holding" then 0x03 else 0x04
  }

  /** The data octets the collector receives when it polls the point. */
  function Polled(t: Store, p: Point): seq<byte>
    requires |HandleTcp(t, ShortRequest(ReadFunction(p.regType), p.address, Quantity(p.dataType))).reply| >= 2
  {
    HandleTcp(t, ShortRequest(ReadFunction(p.regType), p.address, Quantity(p.dataType))).reply[2..]
  }

  lemma PolledBytes(t: Store, p: Point)
    requires p.regType == "holding" || p.regType == "input"
    requires p.address + Quantity(p.dataType) <= SIZE
    ensures |HandleTcp(t, ShortRequest(ReadFunction(p.regType), p.address, Quantity(p.dataType))).reply| >= 2
    ensures var cells := WordTable(t, ReadFunction(p.regType));
            Polled(t, p) == WordBytes(cells[p.address..p.address + Quantity(p.dataType)])
  {
    hide ShortRequest, DecodeTcp, WordBytes;
    DecodeWordRead(ReadFunction(p.regType), p.address, Quantity(p.dataType));
  }

  lemma OneWordBytes(w: word)
    ensures WordBytes([w]) == BigEndian(w)
  {
  }

  /** The point's own value is the last one its register got. */
  ghost predicate LastWriter(ps: seq<Point>, row: Row, narrow: Narrow, p: Point) {
    match PointWrite(p, row, narrow)
    case WriteWord(table, a, v) => LastWord(ps, row, narrow, table, a) == Some(v)
    case WritePair(table, a, bits) =>
      LastWord(ps, row, narrow, table, a) == Some(HighWord(bits)) && LastWord(ps, row, narrow, table, a + 1) == Some(LowWord(bits))
    case _ => false
  }

  /** A 16-bit point over finite numbers. */
  predicate Plain(p: Point, row: Row) {
    && (p.regType == "holding" || p.regType == "input")
    && (p.dataType == "uint16" || p.dataType == "int16")
    && p.name in row && row[p.name].Fin? && p.scale.Fin? && p.offset.Fin?
  }

  function Scale(p: Point): real
    requires p.scale.Fin?
  {
    if p.scale.x == 0.0 then 1.0 else p.scale.x
  }

  lemma PlainScaled(p: Point, row: Row)
    requires Plain(p, row)
    ensures Scaled(p, row[p.name]) == Fin(row[p.name].x * Scale(p) + p.offset.x)
  {
  }

  /** What the register of a plain accepted point holds, read as the collector reads it. */
  lemma PlainWord(p: Point, row: Row, narrow: Narrow)
    requires Plain(p, row) && PointWrite(p, row, narrow).WriteWord?
    ensures var w := PointWrite(p, row, narrow);
            && w.table == TableOf(p.regType) && w.address == p.address
            && (if p.dataType == "uint16" then w.value as int else Signed16(w.value)) == Round(row[p.name].x * Scale(p) + p.offset.x)
  {
    hide Round, Scaled, Scale;
    PlainScaled(p, row);
    if p.dataType == "int16" {
      Signed16RoundTrip(Scaled(p, row[p.name]));
    }
  }

  lemma DecodePlain(w: word, p: Point, row: Row, order: string, widen: pattern -> F64)
    requires Plain(p, row)
    ensures var r := if p.dataType == "uint16" then w as int else Signed16(w);
            Decode(BigEndian(w), p.dataType, order, p.scale, p.offset, widen) == Value(Fin((r as real - p.offset.x) / Scale(p)))
  {
    hide Signed16, WordOf;
  }

  /** For a 16-bit point whose scaled value was accepted, the collected value is within half a
      register step of the CSV value. */
  lemma CalibrationEndToEnd(t: Store, t': Store, ps: seq<Point>, row: Row, narrow: Narrow, p: Point, order: string, widen: pattern -> F64)
    requires RowApplied(t, t', ps, row, narrow) && Plain(p, row) && LastWriter(ps, row, narrow, p)
    ensures |HandleTcp(t', ShortRequest(ReadFunction(p.regType), p.address, Quantity(p.dataType))).reply| >= 2
    ensures var d := Decode(Polled(t', p), p.dataType, order, p.scale, p.offset, widen);
            d.Value? && d.v.Fin? && Abs(d.v.x - row[p.name].x) <= 1.0 / (2.0 * Abs(Scale(p)))
  {
    hide PointWrite, LastWord, LastBit, HandleTcp, Decode, Round, Signed16, BigEndian, WordBytes, ShortRequest, Abs, Polled;
    PlainIsWord(p, row, narrow);
    PlainWord(p, row, narrow);
    var w := PointWrite(p, row, narrow);
    var cells := WordTable(t', ReadFunction(p.regType));
    assert cells[p.address] == w.value;
    PolledBytes(t', p);
    OneCell(cells, p.address);
    OneWordBytes(w.value);
    DecodePlain(w.value, p, row, order, widen);
    ScaleNonzero(p);
    var scaled := row[p.name].x * Scale(p) + p.offset.x;
    CalibrationError(row[p.name].x, Scale(p), p.offset.x, scaled);
  }

  lemma OneCell<T>(cells: seq<T>, a: nat)
    requires a < |cells|
    ensures cells[a..a + 1] == [cells[a]]
  {
  }

  lemma ScaleNonzero(p: Point)
    requires p.scale.Fin?
    ensures Scale(p) != 0.0
  {
  }

  lemma PlainIsWord(p: Point, row: Row, narrow: Narrow)
    requires Plain(p, row)
    ensures !PointWrite(p, row, narrow).WritePair?
  {
    hide Scaled, FloatToUint16, FloatToInt16;
  }

  /** A float32 point is read back as the number that its octets, high word first, are in the byte order
      asked for, and so bit for bit by every order that leaves them in place, in particular ABCD; the
      value is the calibration of that pattern. */
  lemma Float32EndToEnd(t: Store, t': Store, ps: seq<Point>, row: Row, narrow: Narrow, p: Point, order: string, widen: pattern -> F64)
    requires RowApplied(t, t', ps, row, narrow) && p.dataType == "float32" && LastWriter(ps, row, narrow, p)
    ensures |HandleTcp(t', ShortRequest(ReadFunction(p.regType), p.address, Quantity(p.dataType))).reply| >= 2
    ensures var bits := PointWrite(p, row, narrow).bits;
            var bs := PatternBytes(bits);
            var n := Unsigned32(bs, order);
            && 0 <= n < 0x1_0000_0000
            && Decode(Polled(t', p), p.dataType, order, p.scale, p.offset, widen) == Value(Calibrate(widen(n), p.scale, p.offset))
            && (Reorder32(bs, order) == bs ==> n == bits)
  {
    hide LastWord, LastBit, HandleTcp, HighWord, LowWord, WordBytes, ShortRequest, Polled, Calibrate, Reorder32, Uint32, PointWrite, Scaled,
      Unsigned32, Decode;
    FloatIsPair(p, row, narrow);
    var w := PointWrite(p, row, narrow);
    var cells := WordTable(t', ReadFunction(p.regType));
    assert cells[p.address] == HighWord(w.bits) && cells[p.address + 1] == LowWord(w.bits);
    PolledBytes(t', p);
    assert cells[p.address..p.address + 2] == [HighWord(w.bits), LowWord(w.bits)];
    PatternBytesUint32(w.bits);
    assert PatternBytes(w.bits)[..4] == PatternBytes(w.bits);
    Uint32OfOrder(PatternBytes(w.bits), order);
    DecodeOnOctets(PatternBytes(w.bits), p.dataType, order, p.scale, p.offset, widen);
  }

  lemma FloatIsPair(p: Point, row: Row, narrow: Narrow)
    requires p.dataType == "float32" && (PointWrite(p, row, narrow).WriteWord? || PointWrite(p, row, narrow).WritePair?)
    ensures var w := PointWrite(p, row, narrow);
            w.WritePair? && w.table == TableOf(p.regType) && w.address == p.address
            && (p.regType == "holding" || p.regType == "input")
  {
    hide Scaled;
  }

  /** A coil or discrete point is collected as set exactly when its calibrated value is positive,
      for every value a CSV column can hold, NaN and the infinities among them. */
  lemma BitEndToEnd(t: Store, t': Store, ps: seq<Point>, row: Row, narrow: Narrow, p: Point)
    requires RowApplied(t, t', ps, row, narrow) && p.name in row && (p.regType == "coil" || p.regType == "discrete")
    requires var w := PointWrite(p, row, narrow);
             w.WriteBit? && LastBit(ps, row, narrow, w.table, w.address) == Some(w.on)
    ensures var reply := HandleTcp(t', ShortRequest(if p.regType == "coil" then 0x01 else 0x02, p.address, 1)).reply;
            && |reply| >= 2
            && (DecodeBit(reply[2..]) <==> Positive(Scaled(p, row[p.name])))
            && (p.scale.Fin? && p.offset.Fin? ==> (DecodeBit(reply[2..]) <==> PositiveOver(row[p.name], Scale(p), p.offset.x)))
  {
    hide LastWord, LastBit, ShortRequest, HandleTcp, DecodeBit, PointWrite, Scaled, Scale, Positive, PositiveOver;
    BitPoint(p, row, narrow);
    if p.scale.Fin? && p.offset.Fin? {
      BitScaled(p, row);
    }
    var fn := if p.regType == "coil" then 0x01 else 0x02;
    PolledBit(t', fn, p.address);
    var w := PointWrite(p, row, narrow);
    assert BitTable(t', fn)[p.address] == w.on;
  }

  /** The sign of a calibrated value: NaN is not positive, and an infinity has the sign that the
      scale gives it. */
  predicate PositiveOver(raw: F64, scale: real, offset: real) {
    match raw
    case NaN => false
    case Inf(negative) => negative == (scale < 0.0)
    case Fin(x) => x * scale + offset > 0.0
  }

  /** The collector reads one coil or discrete input as it stands in its table. */
  lemma PolledBit(t: Store, fn: byte, a: word)
    requires fn == 0x01 || fn == 0x02
    ensures var reply := HandleTcp(t, ShortRequest(fn, a, 1)).reply;
            |reply| >= 2 && (DecodeBit(reply[2..]) <==> BitTable(t, fn)[a])
  {
    hide ShortRequest, DecodeTcp, Pack, Bit;
    DecodeBitRead(fn, a, 1);
    var cells := BitTable(t, fn);
    OneCell(cells, a);
    OneBitPacked(cells[a]);
  }

  lemma OneBitPacked(b: bool)
    ensures |Pack([b])| == 1 && (Bit(Pack([b])[0], 0) <==> b)
  {
    hide Bit, Pack;
    PackBit([b], 0);
  }

  lemma BitPoint(p: Point, row: Row, narrow: Narrow)
    requires p.name in row && (p.regType == "coil" || p.regType == "discrete")
    ensures PointWrite(p, row, narrow)
         == WriteBit(if p.regType == "coil" then Coils else Discretes, p.address, Positive(Scaled(p, row[p.name])))
  {
    hide Scaled, Positive;
  }

  lemma BitScaled(p: Point, row: Row)
    requires p.name in row && p.scale.Fin? && p.offset.Fin?
    ensures Positive(Scaled(p, row[p.name])) <==> PositiveOver(row[p.name], Scale(p), p.offset.x)
  {
  }
}
