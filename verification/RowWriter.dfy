/** One CSV row written into the tables of a TCP server (internal/servermgr/manager.go). */
module RowWriter {
  import opened Bytes
  import opened Floats
  import opened Codec
  import opened Engine
  import opened TcpServer
  import opened Options

  /** Name, register type and data type are already trimmed and in lower case. */
  datatype Point = Point(name: string, address: word, regType: string, dataType: string, scale: F64, offset: F64)

  datatype Device = Device(points: seq<Point>)

  type Row = map<string, F64>

  /** Go's `float32(x)` and its bits; none when it overflows to an infinity. */
  type Narrow = real -> Option<pattern>

  // ---------------------------------------------------------------------------
  // What one point asks for
  // ---------------------------------------------------------------------------

  datatype Table = Coils | Discretes | Holding | Inputs

  /** The cells a point of a row writes; `Nothing` when it is skipped or rejected. */
  datatype Write =
    | Nothing
    | WriteBit(table: Table, address: word, on: bool)
    | WriteWord(table: Table, address: word, value: word)
    | WritePair(table: Table, address: word, bits: pattern)
  {
    predicate Sound() {
      match this
      case Nothing => true
      case WriteBit(table, _, _) => table.Coils? || table.Discretes?
      case WriteWord(table, _, _) => table.Holding? || table.Inputs?
      case WritePair(table, address, _) => (table.Holding? || table.Inputs?) && address + 1 < SIZE
    }
  }

  type SoundWrite = w: Write | w.Sound() witness Nothing

  /** The calibrated value of the point's column. */
  function Scaled(p: Point, raw: F64): F64 {
    Add(Mul(raw, if p.scale == Fin(0.0) then Fin(1.0) else p.scale), p.offset)
  }

  /** The cells a numeric value writes; an unknown register or data type, a value out of range,
      and a pair that does not fit below the last address write nothing. */
  function NumericWrite(regType: string, address: word, dataType: string, v: F64, narrow: Narrow): SoundWrite {
    if regType != "holding" && regType != "input" then Nothing
    else
      var table := if regType == "holding" then Holding else Inputs;
      if dataType == "uint16" then
        (if FloatToUint16(v).Some? then WriteWord(table, address, FloatToUint16(v).value) else Nothing)
      else if dataType == "int16" then
        (if FloatToInt16(v).Some? then WriteWord(table, address, FloatToInt16(v).value) else Nothing)
      else if dataType == "float32" then
        (if v.Fin? && address != 0xFFFF && narrow(v.x).Some? then WritePair(table, address, narrow(v.x).value) else Nothing)
      else Nothing
  }

  function PointWrite(p: Point, row: Row, narrow: Narrow): SoundWrite {
    if p.name !in row then Nothing
    else
      var v := Scaled(p, row[p.name]);
      if p.regType == "holding" || p.regType == "input" then
        NumericWrite(p.regType, p.address, if p.dataType == "" then "uint16" else p.dataType, v, narrow)
      else if p.regType == "coil" then WriteBit(Coils, p.address, Positive(v))
      else if p.regType == "discrete" then WriteBit(Discretes, p.address, Positive(v))
      else Nothing
  }

  /** Calibration is finite exactly on finite inputs. */
  lemma ScaledFinite(p: Point, raw: F64)
    ensures Scaled(p, raw).Fin? <==> raw.Fin? && p.scale.Fin? && p.offset.Fin?
  {
  }

  /** NaN and the infinities never reach a numeric register. */
  lemma SpecialsRejected(p: Point, row: Row, narrow: Narrow)
    requires p.name in row && (p.regType == "holding" || p.regType == "input")
    requires !(row[p.name].Fin? && p.scale.Fin? && p.offset.Fin?)
    ensures PointWrite(p, row, narrow) == Nothing
  {
    hide Scaled;
    ScaledFinite(p, row[p.name]);
  }

  /** `n` is the integer nearest to `v`, of two the one farther from zero. */
  predicate Nearest(n: int, v: real) {
    if v >= 0.0 then v - 0.5 < n as real <= v + 0.5 else v - 0.5 <= n as real < v + 0.5
  }

  lemma RoundNearest(v: real)
    ensures forall n: int :: Nearest(n, v) <==> n == Round(v)
  {
    forall n: int
      ensures Nearest(n, v) <==> n == Round(v)
    {
      if Nearest(n, v) {
        OneNearest(n, Round(v), v);
      }
    }
  }

  lemma OneNearest(n: int, m: int, v: real)
    requires Nearest(n, v) && m == Round(v)
    ensures n == m
  {
    assert Nearest(m, v) && -1.0 < n as real - m as real < 1.0;
  }

  lemma Uint16OnNumbers(v: real)
    ensures var r := FloatToUint16(Fin(v));
            && (r.Some? <==> -0.5 < v < 65535.5)
            && (r.Some? ==> Nearest(r.value, v))
  {
    hide Nearest;
    RoundNearest(v);
  }

  lemma Int16OnNumbers(v: real)
    ensures var r := FloatToInt16(Fin(v));
            && (r.Some? <==> -32768.5 < v < 32767.5)
            && (r.Some? ==> Nearest(if r.value >= 32768 then r.value - 65536 else r.value, v))
  {
    hide Nearest;
    RoundNearest(v);
  }

  /** What a point writes, in numbers: `v` is its calibrated value, a scale of zero counting as one and
      no data type as uint16. */
  lemma PointOnNumbers(p: Point, row: Row, narrow: Narrow, v: real)
    requires p.name in row && row[p.name].Fin? && p.scale.Fin? && p.offset.Fin?
    requires v == if p.scale.x == 0.0 then row[p.name].x + p.offset.x else row[p.name].x * p.scale.x + p.offset.x
    ensures var w := PointWrite(p, row, narrow);
            if p.regType == "coil" then w == WriteBit(Coils, p.address, v > 0.0)
            else if p.regType == "discrete" then w == WriteBit(Discretes, p.address, v > 0.0)
            else if p.regType != "holding" && p.regType != "input" then w == Nothing
            else if p.dataType == "uint16" || p.dataType == "" then
              if -0.5 < v < 65535.5 then
                w.WriteWord? && w.table == (if p.regType == "holding" then Holding else Inputs) && w.address == p.address && Nearest(w.value, v)
              else w == Nothing
            else if p.dataType == "int16" then
              if -32768.5 < v < 32767.5 then
                && w.WriteWord? && w.table == (if p.regType == "holding" then Holding else Inputs) && w.address == p.address
                && Nearest(if w.value >= 32768 then w.value - 65536 else w.value, v)
              else w == Nothing
            else if p.dataType == "float32" && p.address < 65535 && narrow(v).Some? then
              w == WritePair(if p.regType == "holding" then Holding else Inputs, p.address, narrow(v).value)
            else w == Nothing
  {
    hide Nearest, FloatToUint16, FloatToInt16, Scaled;
    ScaledOnNumbers(p, row[p.name].x, v);
    Uint16OnNumbers(v);
    Int16OnNumbers(v);
  }

  lemma ScaledOnNumbers(p: Point, x: real, v: real)
    requires p.scale.Fin? && p.offset.Fin?
    requires v == if p.scale.x == 0.0 then x + p.offset.x else x * p.scale.x + p.offset.x
    ensures Scaled(p, Fin(x)) == Fin(v)
  {
  }

  /** A point that is not in the row writes nothing. */
  lemma MissingPoint(p: Point, row: Row, narrow: Narrow)
    requires p.name !in row
    ensures PointWrite(p, row, narrow) == Nothing
  {
  }

  // ---------------------------------------------------------------------------
  // What a row asks for
  // ---------------------------------------------------------------------------

  function AllPoints(devices: seq<Device>): seq<Point>
    decreases devices
  {
    if devices == [] then [] else devices[0].points + AllPoints(devices[1..])
  }

  /** Device by device, and point by point within a device. */
  lemma {:induction false} PointsInOrder(devices: seq<Device>, k: nat)
    requires k < |devices|
    ensures AllPoints(devices) == AllPoints(devices[..k]) + devices[k].points + AllPoints(devices[k + 1..])
    decreases k
  {
    if k == 0 {
      assert devices[..0] == [];
    } else {
      PointsInOrder(devices[1..], k - 1);
      assert devices[1..][..k - 1] == devices[..k][1..] && devices[1..][k..] == devices[k + 1..];
    }
  }

  /** The value a write puts into one register, if it covers it. */
  function WordAt(w: Write, table: Table, a: nat): Option<word> {
    match w
    case WriteWord(tb, address, value) => if tb == table && a == address then Some(value) else None
    case WritePair(tb, address, bits) =>
      if tb == table && a == address then Some(HighWord(bits))
      else if tb == table && a == address + 1 then Some(LowWord(bits))
      else None
    case _ => None
  }

  function BitAt(w: Write, table: Table, a: nat): Option<bool> {
    match w
    case WriteBit(tb, address, on) => if tb == table && a == address then Some(on) else None
    case _ => None
  }

  /** The value the last point that covers the register gives it. */
  function LastWord(ps: seq<Point>, row: Row, narrow: Narrow, table: Table, a: nat): Option<word>
    decreases |ps|
  {
    if ps == [] then None
    else
      var w := WordAt(PointWrite(ps[|ps| - 1], row, narrow), table, a);
      if w.Some? then w else LastWord(ps[..|ps| - 1], row, narrow, table, a)
  }

  function LastBit(ps: seq<Point>, row: Row, narrow: Narrow, table: Table, a: nat): Option<bool>
    decreases |ps|
  {
    if ps == [] then None
    else
      var w := BitAt(PointWrite(ps[|ps| - 1], row, narrow), table, a);
      if w.Some? then w else LastBit(ps[..|ps| - 1], row, narrow, table, a)
  }

  /** The last point that covers a register is the one after which no other does. */
  lemma {:induction false} LastWordDecides(ps: seq<Point>, row: Row, narrow: Narrow, table: Table, a: nat, k: nat)
    requires k < |ps|
    requires WordAt(PointWrite(ps[k], row, narrow), table, a).Some?
    requires forall j | k < j < |ps| :: WordAt(PointWrite(ps[j], row, narrow), table, a).None?
    ensures LastWord(ps, row, narrow, table, a) == WordAt(PointWrite(ps[k], row, narrow), table, a)
    decreases |ps|
  {
    hide WordAt, PointWrite;
    if k < |ps| - 1 {
      LastWordDecides(ps[..|ps| - 1], row, narrow, table, a, k);
    }
  }

  lemma {:induction false} LastBitDecides(ps: seq<Point>, row: Row, narrow: Narrow, table: Table, a: nat, k: nat)
    requires k < |ps|
    requires BitAt(PointWrite(ps[k], row, narrow), table, a).Some?
    requires forall j | k < j < |ps| :: BitAt(PointWrite(ps[j], row, narrow), table, a).None?
    ensures LastBit(ps, row, narrow, table, a) == BitAt(PointWrite(ps[k], row, narrow), table, a)
    decreases |ps|
  {
    hide BitAt, PointWrite;
    if k < |ps| - 1 {
      LastBitDecides(ps[..|ps| - 1], row, narrow, table, a, k);
    }
  }

  /** Every cell holds what the last accepted point covering it says, or what it held before. */
  ghost predicate RowApplied(t: Store, t': Store, ps: seq<Point>, row: Row, narrow: Narrow) {
    forall a | 0 <= a < SIZE ::
      && t'.coils[a] == Or(LastBit(ps, row, narrow, Coils, a), t.coils[a])
      && t'.discretes[a] == Or(LastBit(ps, row, narrow, Discretes, a), t.discretes[a])
      && t'.holding[a] == Or(LastWord(ps, row, narrow, Holding, a), t.holding[a])
      && t'.inputs[a] == Or(LastWord(ps, row, narrow, Inputs, a), t.inputs[a])
  }

  /** The tables after one write. */
  function Put(t: Store, w: SoundWrite): Store {
    match w
    case Nothing => t
    case WriteBit(table, a, on) =>
      if table.Coils? then t.(coils := t.coils[a := on]) else t.(discretes := t.discretes[a := on])
    case WriteWord(table, a, v) =>
      if table.Holding? then t.(holding := t.holding[a := v]) else t.(inputs := t.inputs[a := v])
    case WritePair(table, a, bits) =>
      if table.Holding? then t.(holding := t.holding[a := HighWord(bits)][a + 1 := LowWord(bits)])
      else t.(inputs := t.inputs[a := HighWord(bits)][a + 1 := LowWord(bits)])
  }

  /** A pair of registers holds a 32-bit value with its high half at the lower address. */
  lemma PairOnNumbers(t: Store, a: word, bits: pattern)
    requires a < 65535
    ensures 65536 * (Put(t, WritePair(Holding, a, bits)).holding[a] as int) + Put(t, WritePair(Holding, a, bits)).holding[a + 1] == bits
    ensures 65536 * (Put(t, WritePair(Inputs, a, bits)).inputs[a] as int) + Put(t, WritePair(Inputs, a, bits)).inputs[a + 1] == bits
  {
  }

  lemma PutWordCell(t: Store, w: SoundWrite, a: nat)
    requires a < SIZE
    ensures Put(t, w).holding[a] == Or(WordAt(w, Holding, a), t.holding[a])
    ensures Put(t, w).inputs[a] == Or(WordAt(w, Inputs, a), t.inputs[a])
  {
    hide HighWord, LowWord;
  }

  lemma PutBitCell(t: Store, w: SoundWrite, a: nat)
    requires a < SIZE
    ensures Put(t, w).coils[a] == Or(BitAt(w, Coils, a), t.coils[a])
    ensures Put(t, w).discretes[a] == Or(BitAt(w, Discretes, a), t.discretes[a])
  {
    hide HighWord, LowWord;
  }

  lemma LastGrows(ps: seq<Point>, p: Point, row: Row, narrow: Narrow, table: Table, a: nat)
    ensures var w := WordAt(PointWrite(p, row, narrow), table, a);
            LastWord(ps + [p], row, narrow, table, a) == if w.Some? then w else LastWord(ps, row, narrow, table, a)
    ensures var b := BitAt(PointWrite(p, row, narrow), table, a);
            LastBit(ps + [p], row, narrow, table, a) == if b.Some? then b else LastBit(ps, row, narrow, table, a)
  {
    hide PointWrite, WordAt, BitAt;
    assert (ps + [p])[..|ps|] == ps;
  }

  /** One more point at the end of the list. */
  lemma OneMore(t: Store, t': Store, ps: seq<Point>, p: Point, row: Row, narrow: Narrow)
    requires RowApplied(t, t', ps, row, narrow)
    ensures RowApplied(t, Put(t', PointWrite(p, row, narrow)), ps + [p], row, narrow)
  {
    hide PointWrite, Put, WordAt, BitAt, LastWord, LastBit;
    var w := PointWrite(p, row, narrow);
    forall a | 0 <= a < SIZE
      ensures Put(t', w).coils[a] == Or(LastBit(ps + [p], row, narrow, Coils, a), t.coils[a])
      ensures Put(t', w).discretes[a] == Or(LastBit(ps + [p], row, narrow, Discretes, a), t.discretes[a])
      ensures Put(t', w).holding[a] == Or(LastWord(ps + [p], row, narrow, Holding, a), t.holding[a])
      ensures Put(t', w).inputs[a] == Or(LastWord(ps + [p], row, narrow, Inputs, a), t.inputs[a])
    {
      PutWordCell(t', w, a);
      PutBitCell(t', w, a);
      LastGrows(ps, p, row, narrow, Coils, a);
      LastGrows(ps, p, row, narrow, Discretes, a);
      LastGrows(ps, p, row, narrow, Holding, a);
      LastGrows(ps, p, row, narrow, Inputs, a);
    }
  }

  // ---------------------------------------------------------------------------
  // The program
  // ---------------------------------------------------------------------------

  method SetRegisterWord(server: Server, regType: string, address: word, value: word) returns (ok: bool)
    requires server.Valid()
    modifies server.holdingRegisters, server.inputRegisters
    ensures ok <==> regType == "holding" || regType == "input"
    ensures server.View() == if !ok then old(server.View())
                             else Put(old(server.View()), WriteWord(if regType == "holding" then Holding else Inputs, address, value))
  {
    if regType == "holding" {
      ok := server.SetHoldingRegister(address, value);
    } else if regType == "input" {
      ok := server.SetInputRegister(address, value);
    } else {
      ok := false;
    }
  }

  /** Two words or none: the second write cannot fail once the first has succeeded. */
  method SetRegisterFloat32(server: Server, regType: string, address: word, scaled: F64, narrow: Narrow) returns (ok: bool)
    requires server.Valid()
    modifies server.holdingRegisters, server.inputRegisters
    ensures ok <==> NumericWrite(regType, address, "float32", scaled, narrow).WritePair?
    ensures server.View() == Put(old(server.View()), NumericWrite(regType, address, "float32", scaled, narrow))
  {
    if !scaled.Fin? {
      return false;
    }
    if address == 0xFFFF {
      return false;
    }
    var f32 := narrow(scaled.x);
    if f32.None? {
      return false;
    }
    var hi, lo := HighWord(f32.value), LowWord(f32.value);
    ok := SetRegisterWord(server, regType, address, hi);
    if !ok {
      return;
    }
    ok := SetRegisterWord(server, regType, address + 1, lo);
  }

  method WriteNumericRegister(server: Server, regType: string, address: word, dataType: string, scaled: F64, narrow: Narrow) returns (ok: bool)
    requires server.Valid()
    modifies server.holdingRegisters, server.inputRegisters
    ensures ok <==> !NumericWrite(regType, address, dataType, scaled, narrow).Nothing?
    ensures server.View() == Put(old(server.View()), NumericWrite(regType, address, dataType, scaled, narrow))
  {
    hide FloatToUint16, FloatToInt16;
    if dataType == "uint16" {
      var w := FloatToUint16(scaled);
      if w.None? {
        return false;
      }
      ok := SetRegisterWord(server, regType, address, w.value);
    } else if dataType == "int16" {
      var w := FloatToInt16(scaled);
      if w.None? {
        return false;
      }
      ok := SetRegisterWord(server, regType, address, w.value);
    } else if dataType == "float32" {
      ok := SetRegisterFloat32(server, regType, address, scaled, narrow);
    } else {
      ok := false;
    }
  }

  method ApplyPoint(server: Server, p: Point, row: Row, narrow: Narrow)
    requires server.Valid()
    modifies server.coils, server.discreteInputs, server.holdingRegisters, server.inputRegisters
    ensures server.View() == Put(old(server.View()), PointWrite(p, row, narrow))
  {
    hide NumericWrite;
    if p.name !in row {
      return;
    }
    var raw := row[p.name];
    var scale := p.scale;
    if scale == Fin(0.0) {
      scale := Fin(1.0);
    }
    var scaled := Add(Mul(raw, scale), p.offset);
    assert scaled == Scaled(p, row[p.name]);
    if p.regType == "holding" || p.regType == "input" {
      var dataType := p.dataType;
      if dataType == "" {
        dataType := "uint16";
      }
      var ok := WriteNumericRegister(server, p.regType, p.address, dataType, scaled, narrow);
    } else if p.regType == "coil" {
      var ok := server.SetCoil(p.address, Positive(scaled));
    } else if p.regType == "discrete" {
      var ok := server.SetDiscreteInput(p.address, Positive(scaled));
    }
  }

  /** The inner loop: the points of one device. */
  method ApplyPoints(server: Server, points: seq<Point>, row: Row, narrow: Narrow, ghost t: Store, ghost before: seq<Point>)
    requires server.Valid() && RowApplied(t, server.View(), before, row, narrow)
    modifies server.coils, server.discreteInputs, server.holdingRegisters, server.inputRegisters
    ensures RowApplied(t, server.View(), before + points, row, narrow)
  {
    hide PointWrite, Put, RowApplied;
    assert before + points[..0] == before;
    for j := 0 to |points|
      invariant RowApplied(t, server.View(), before + points[..j], row, narrow)
    {
      OneMore(t, server.View(), before + points[..j], points[j], row, narrow);
      ApplyPoint(server, points[j], row, narrow);
      assert before + points[..j] + [points[j]] == before + points[..j + 1];
    }
    assert points[..|points|] == points;
  }

  /** `applyRowToServer`: last writer wins, cell by cell. */
  method ApplyRow(server: Server, devices: seq<Device>, rows: seq<Row>, index: nat, narrow: Narrow)
    requires server.Valid() && (rows == [] || index < |rows|)
    modifies server.coils, server.discreteInputs, server.holdingRegisters, server.inputRegisters
    ensures rows == [] ==> server.View() == old(server.View())
    ensures rows != [] ==> RowApplied(old(server.View()), server.View(), AllPoints(devices), rows[index], narrow)
  {
    hide RowApplied;
    if |rows| == 0 {
      return;
    }
    var row := rows[index];
    ghost var t := server.View();
    ghost var applied: seq<Point> := [];
    NothingApplied(t, row, narrow);
    for i := 0 to |devices|
      invariant applied + AllPoints(devices[i..]) == AllPoints(devices)
      invariant RowApplied(t, server.View(), applied, row, narrow)
    {
      AllPointsStep(devices, i);
      ApplyPoints(server, devices[i].points, row, narrow, t, applied);
      applied := applied + devices[i].points;
    }
    assert applied == AllPoints(devices);
  }

  lemma AllPointsStep(devices: seq<Device>, i: nat)
    requires i < |devices|
    ensures AllPoints(devices[i..]) == devices[i].points + AllPoints(devices[i + 1..])
  {
    assert devices[i..][1..] == devices[i + 1..];
  }

  lemma NothingApplied(t: Store, row: Row, narrow: Narrow)
    ensures RowApplied(t, t, [], row, narrow)
  {
  }
}
