/** Grouping the rows of a device list into devices (internal/collector/config.go,
    `loadDevicesFromCSV`), from rows that are already split and trimmed. */
module Devices {
  import opened Bytes
  import opened Floats
  import opened Options

  /** A column of a row: empty or missing, not parsable, or parsed. */
  datatype Field<T> = Absent | Bad | Given(value: T)

  /** `pointName` is the point_name column, or else the name column. */
  datatype Row = Row(
    deviceId: string, slave: Field<byte>, poll: Field<int>, vendor: string,
    pointName: string, address: Field<word>, registerType: string,
    scale: Field<F64>, offset: Field<F64>, dataType: string, byteOrder: string, unit: string)

  datatype Point = Point(
    address: word, name: string, dataType: string, byteOrder: string, registerType: string,
    scale: F64, offset: F64, unit: string)

  datatype Device = Device(deviceId: string, vendor: string, slaveId: byte, pollInterval: int, points: seq<Point>)

  datatype Error =
    | NoDeviceId | BadSlaveId(id: string) | BadPollInterval(id: string)
    | NoPointName(id: string) | BadAddress(id: string) | NoRegisterType(id: string)
    | BadScale(id: string) | BadOffset(id: string) | NoPoints(id: string)

  datatype Result = Loaded(devices: seq<Device>) | Failed(error: Error)

  const FIVE_SECONDS: int := 5_000_000_000

  // ---------------------------------------------------------------------------
  // Rows
  // ---------------------------------------------------------------------------

  /** The first check a row fails; the device columns are only looked at in a device's first row. */
  function RowError(r: Row, first: bool): Option<Error> {
    if r.deviceId == "" then Some(NoDeviceId)
    else if first && r.slave.Bad? then Some(BadSlaveId(r.deviceId))
    else if first && r.poll.Bad? then Some(BadPollInterval(r.deviceId))
    else if r.pointName == "" then Some(NoPointName(r.deviceId))
    else if !r.address.Given? then Some(BadAddress(r.deviceId))
    else if r.registerType == "" then Some(NoRegisterType(r.deviceId))
    else if r.scale.Bad? then Some(BadScale(r.deviceId))
    else if r.offset.Bad? then Some(BadOffset(r.deviceId))
    else None
  }

  function PointOf(r: Row): Point {
    Point(if r.address.Given? then r.address.value else 0, r.pointName, r.dataType, r.byteOrder, r.registerType,
          if r.scale.Given? then r.scale.value else Fin(1.0), if r.offset.Given? then r.offset.value else Fin(0.0), r.unit)
  }

  /** A device without points, from its first row. */
  function DeviceOf(r: Row): (d: Device)
    ensures d.points == []
  {
    Device(r.deviceId, r.vendor, if r.slave.Given? then r.slave.value else 0,
           if r.poll.Given? && r.poll.value > 0 then r.poll.value else FIVE_SECONDS, [])
  }

  /** Which rows are refused, and with which error: the device columns only in a device's first row,
      and of several bad columns the first in this order names the error. */
  lemma RowChecks(r: Row, first: bool)
    ensures var id, e := r.deviceId, RowError(r, first);
            var head := id != "" && (first ==> !r.slave.Bad? && !r.poll.Bad?);
            && (e == None <==> head && r.pointName != "" && r.address.Given? && r.registerType != "" && !r.scale.Bad? && !r.offset.Bad?)
            && (e == Some(NoDeviceId) <==> id == "")
            && (e == Some(BadSlaveId(id)) <==> id != "" && first && r.slave.Bad?)
            && (e == Some(BadPollInterval(id)) <==> id != "" && first && !r.slave.Bad? && r.poll.Bad?)
            && (e == Some(NoPointName(id)) <==> head && r.pointName == "")
            && (e == Some(BadAddress(id)) <==> head && r.pointName != "" && !r.address.Given?)
            && (e == Some(NoRegisterType(id)) <==> head && r.pointName != "" && r.address.Given? && r.registerType == "")
            && (e == Some(BadScale(id)) <==> head && r.pointName != "" && r.address.Given? && r.registerType != "" && r.scale.Bad?)
            && (e == Some(BadOffset(id))
                <==> head && r.pointName != "" && r.address.Given? && r.registerType != "" && !r.scale.Bad? && r.offset.Bad?)
  {
  }

  /** The fields of a point and of a device's first row: a missing scale is one, a missing offset and
      slave id are zero, and a missing or not positive interval is five seconds of nanoseconds. */
  lemma RowFields(r: Row)
    requires r.address.Given?
    ensures var p, d := PointOf(r), DeviceOf(r);
            && p.address == r.address.value && p.name == r.pointName && p.registerType == r.registerType
            && p.dataType == r.dataType && p.byteOrder == r.byteOrder && p.unit == r.unit
            && (if r.scale.Given? then p.scale == r.scale.value else p.scale == Fin(1.0))
            && (if r.offset.Given? then p.offset == r.offset.value else p.offset == Fin(0.0))
            && d.deviceId == r.deviceId && d.vendor == r.vendor
            && (if r.slave.Given? then d.slaveId == r.slave.value else d.slaveId == 0)
            && (if r.poll.Given? && r.poll.value > 0 then d.pollInterval == r.poll.value else d.pollInterval == 5 * 1_000_000_000)
  {
  }

  // ---------------------------------------------------------------------------
  // Groups
  // ---------------------------------------------------------------------------

  /** The device ids in the order of their first rows. */
  function Ids(rows: seq<Row>): seq<string>
    decreases |rows|
  {
    if rows == [] then []
    else
      var ids, id := Ids(rows[..|rows| - 1]), rows[|rows| - 1].deviceId;
      if id in ids then ids else ids + [id]
  }

  /** The rows of one device, in order. */
  function RowsOf(rows: seq<Row>, id: string): seq<Row>
    decreases |rows|
  {
    if rows == [] then []
    else RowsOf(rows[..|rows| - 1], id) + if rows[|rows| - 1].deviceId == id then [rows[|rows| - 1]] else []
  }

  function PointsOf(rows: seq<Row>): (ps: seq<Point>)
    ensures |ps| == |rows|
  {
    seq(|rows|, k requires 0 <= k < |rows| => PointOf(rows[k]))
  }

  function Group(rows: seq<Row>, id: string): Device
    requires RowsOf(rows, id) != []
  {
    DeviceOf(RowsOf(rows, id)[0]).(points := PointsOf(RowsOf(rows, id)))
  }

  /** Row `k` passes every check, given the rows before it. */
  predicate RowFine(rows: seq<Row>, k: nat)
    requires k < |rows|
  {
    RowError(rows[k], rows[k].deviceId !in Ids(rows[..k])).None?
  }

  lemma PrefixStep(rows: seq<Row>, k: nat)
    requires k < |rows|
    ensures Ids(rows[..k + 1]) == if rows[k].deviceId in Ids(rows[..k]) then Ids(rows[..k]) else Ids(rows[..k]) + [rows[k].deviceId]
    ensures forall id :: RowsOf(rows[..k + 1], id) == RowsOf(rows[..k], id) + if rows[k].deviceId == id then [rows[k]] else []
  {
    assert rows[..k + 1][..k] == rows[..k];
  }

  /** The ids are distinct, and exactly those of some row, so no group is empty. */
  lemma {:induction false} IdsAreGroups(rows: seq<Row>)
    ensures forall i, j | 0 <= i < j < |Ids(rows)| :: Ids(rows)[i] != Ids(rows)[j]
    ensures forall id :: id in Ids(rows) <==> RowsOf(rows, id) != []
    decreases |rows|
  {
    if rows != [] {
      IdsAreGroups(rows[..|rows| - 1]);
    }
  }

  /** First-seen order: the ids of a longer list begin with those of a shorter one. */
  lemma {:induction false} IdsInOrder(rows: seq<Row>, k: nat)
    requires k <= |rows|
    ensures Ids(rows[..k]) <= Ids(rows)
    decreases |rows|
  {
    if k < |rows| {
      var n := |rows| - 1;
      assert rows[..n][..k] == rows[..k];
      IdsInOrder(rows[..n], k);
    } else {
      assert rows[..k] == rows;
    }
  }

  /** Where the rows of a device are. */
  function PlacesOf(rows: seq<Row>, id: string): set<int> {
    set i | 0 <= i < |rows| && rows[i].deviceId == id
  }

  lemma PlacesStep(rows: seq<Row>, id: string)
    requires rows != []
    ensures var n := |rows| - 1;
            |PlacesOf(rows, id)| == |PlacesOf(rows[..n], id)| + if rows[n].deviceId == id then 1 else 0
  {
    var n := |rows| - 1;
    assert PlacesOf(rows, id) == PlacesOf(rows[..n], id) + if rows[n].deviceId == id then {n} else {};
  }

  /** The rows of one device are rows of it, and all of them. */
  lemma {:induction false} RowsOfOne(rows: seq<Row>, id: string)
    ensures forall r | r in RowsOf(rows, id) :: r in rows && r.deviceId == id
    ensures |RowsOf(rows, id)| == |PlacesOf(rows, id)|
    decreases |rows|
  {
    if rows == [] {
      assert PlacesOf(rows, id) == {};
    } else {
      hide PlacesOf;
      RowsOfOne(rows[..|rows| - 1], id);
      PlacesStep(rows, id);
    }
  }

  /** They keep their order: those of a longer list begin with those of a shorter one. */
  lemma {:induction false} RowsInOrder(rows: seq<Row>, id: string, k: nat)
    requires k <= |rows|
    ensures RowsOf(rows[..k], id) <= RowsOf(rows, id)
    decreases |rows|
  {
    if k < |rows| {
      var n := |rows| - 1;
      assert rows[..n][..k] == rows[..k];
      RowsInOrder(rows[..n], id, k);
    } else {
      assert rows[..k] == rows;
    }
  }

  // ---------------------------------------------------------------------------
  // The loader
  // ---------------------------------------------------------------------------

  /** Every row so far is in the group of its device, and in no other. */
  ghost predicate Grouped(rows: seq<Row>, deviceMap: map<string, Device>, order: seq<string>) {
    && order == Ids(rows)
    && (forall id :: id in deviceMap <==> id in order)
    && (forall id | id in deviceMap :: RowsOf(rows, id) != [] && deviceMap[id] == Group(rows, id))
  }

  lemma GroupGrows(rows: seq<Row>, k: nat, deviceMap: map<string, Device>)
    requires k < |rows|
    requires var id := rows[k].deviceId;
             if id in deviceMap then RowsOf(rows[..k], id) != [] && deviceMap[id] == Group(rows[..k], id)
             else RowsOf(rows[..k], id) == []
    ensures var r := rows[k];
            var old_ := if r.deviceId in deviceMap then deviceMap[r.deviceId] else DeviceOf(r);
            && RowsOf(rows[..k + 1], r.deviceId) != []
            && Group(rows[..k + 1], r.deviceId) == old_.(points := old_.points + [PointOf(r)])
  {
    hide DeviceOf, PointOf, Ids, RowsOf;
    var r := rows[k];
    PrefixStep(rows, k);
    var before := RowsOf(rows[..k], r.deviceId);
    assert PointsOf(before + [r]) == PointsOf(before) + [PointOf(r)];
  }

  lemma GroupedStep(rows: seq<Row>, k: nat, deviceMap: map<string, Device>, order: seq<string>)
    requires k < |rows| && Grouped(rows[..k], deviceMap, order)
    ensures var r := rows[k];
            var old_ := if r.deviceId in deviceMap then deviceMap[r.deviceId] else DeviceOf(r);
            Grouped(rows[..k + 1], deviceMap[r.deviceId := old_.(points := old_.points + [PointOf(r)])],
                    if r.deviceId in deviceMap then order else order + [r.deviceId])
  {
    hide DeviceOf, PointOf, Ids, RowsOf, Group;
    PrefixStep(rows, k);
    IdsAreGroups(rows[..k]);
    GroupGrows(rows, k, deviceMap);
    forall id | id in deviceMap && id != rows[k].deviceId
      ensures RowsOf(rows[..k + 1], id) != [] && Group(rows[..k + 1], id) == deviceMap[id]
    {
      SameGroup(rows[..k], rows[..k + 1], id);
    }
  }

  lemma SameGroup(rows: seq<Row>, rows': seq<Row>, id: string)
    requires RowsOf(rows', id) == RowsOf(rows, id) != []
    ensures Group(rows', id) == Group(rows, id)
  {
  }

  /** One turn of the reading loop. */
  method LoadRow(row: Row, deviceMap: map<string, Device>, order: seq<string>)
    returns (failure: Option<Error>, deviceMap': map<string, Device>, order': seq<string>)
    ensures failure == RowError(row, row.deviceId !in deviceMap)
    ensures failure.None? ==>
              var dev := if row.deviceId in deviceMap then deviceMap[row.deviceId] else DeviceOf(row);
              && deviceMap' == deviceMap[row.deviceId := dev.(points := dev.points + [PointOf(row)])]
              && order' == if row.deviceId in deviceMap then order else order + [row.deviceId]
  {
    deviceMap', order' := deviceMap, order;
    if row.deviceId == "" {
      return Some(NoDeviceId), deviceMap', order';
    }
    var dev;
    if row.deviceId in deviceMap {
      dev := deviceMap[row.deviceId];
    } else {
      if row.slave.Bad? {
        return Some(BadSlaveId(row.deviceId)), deviceMap', order';
      }
      if row.poll.Bad? {
        return Some(BadPollInterval(row.deviceId)), deviceMap', order';
      }
      var slaveVal := if row.slave.Given? then row.slave.value else 0;
      var pollDur := if row.poll.Given? then row.poll.value else 0;
      dev := Device(row.deviceId, row.vendor, slaveVal, pollDur, []);
      if dev.pollInterval <= 0 {
        dev := dev.(pollInterval := FIVE_SECONDS);
      }
      order' := order + [row.deviceId];
    }
    if row.pointName == "" {
      return Some(NoPointName(row.deviceId)), deviceMap', order';
    }
    if !row.address.Given? {
      return Some(BadAddress(row.deviceId)), deviceMap', order';
    }
    if row.registerType == "" {
      return Some(NoRegisterType(row.deviceId)), deviceMap', order';
    }
    if row.scale.Bad? {
      return Some(BadScale(row.deviceId)), deviceMap', order';
    }
    if row.offset.Bad? {
      return Some(BadOffset(row.deviceId)), deviceMap', order';
    }
    var scale := if row.scale.Given? then row.scale.value else Fin(1.0);
    var offset := if row.offset.Given? then row.offset.value else Fin(0.0);
    var point := Point(row.address.value, row.pointName, row.dataType, row.byteOrder, row.registerType, scale, offset, row.unit);
    dev := dev.(points := dev.points + [point]);
    return None, deviceMap[row.deviceId := dev], order';
  }

  /** The groups in order; the check for a device without points never fires. */
  method Collect(rows: seq<Row>, deviceMap: map<string, Device>, order: seq<string>) returns (r: Result)
    requires Grouped(rows, deviceMap, order)
    ensures r.Loaded? && |r.devices| == |order|
    ensures forall i | 0 <= i < |order| :: RowsOf(rows, order[i]) != [] && r.devices[i] == Group(rows, order[i])
  {
    hide Ids, RowsOf;
    var devices := [];
    for i := 0 to |order|
      invariant |devices| == i
      invariant forall j | 0 <= j < i :: RowsOf(rows, order[j]) != [] && devices[j] == Group(rows, order[j])
    {
      assert order[i] in deviceMap;
      var dev := deviceMap[order[i]];
      if |dev.points| == 0 {
        return Failed(NoPoints(dev.deviceId));
      }
      devices := devices + [dev];
    }
    return Loaded(devices);
  }

  /** `loadDevicesFromCSV` after the header: the error of the first bad row, or one device per id
      in first-seen order, each with exactly its own rows, in order, as points. */
  method LoadDevices(rows: seq<Row>) returns (r: Result)
    ensures r.Loaded? <==> forall k | 0 <= k < |rows| :: RowFine(rows, k)
    ensures r.Loaded? ==> && |r.devices| == |Ids(rows)|
                          && forall i | 0 <= i < |r.devices| ::
                               RowsOf(rows, Ids(rows)[i]) != [] && r.devices[i] == Group(rows, Ids(rows)[i])
    ensures r.Failed? ==> exists k | 0 <= k < |rows| ::
                            && (forall j | 0 <= j < k :: RowFine(rows, j))
                            && RowError(rows[k], rows[k].deviceId !in Ids(rows[..k])) == Some(r.error)
  {
    hide Ids, RowsOf, PointsOf, RowError, Group;
    var deviceMap: map<string, Device> := map[];
    var order: seq<string> := [];
    NoRows();
    for k := 0 to |rows|
      invariant forall j | 0 <= j < k :: RowFine(rows, j)
      invariant Grouped(rows[..k], deviceMap, order)
    {
      var row := rows[k];
      GroupedStep(rows, k, deviceMap, order);
      var failure, deviceMap', order' := LoadRow(row, deviceMap, order);
      if failure.Some? {
        assert !RowFine(rows, k);
        return Failed(failure.value);
      }
      deviceMap, order := deviceMap', order';
    }
    assert rows[..|rows|] == rows;
    r := Collect(rows, deviceMap, order);
  }

  lemma NoRows()
    ensures Grouped([], map[], [])
  {
  }

  /** How many points the devices have in all. */
  function PointCount(rows: seq<Row>, ids: seq<string>): nat
    decreases ids
  {
    if ids == [] then 0 else |RowsOf(rows, ids[0])| + PointCount(rows, ids[1..])
  }

  lemma {:induction false} CountStep(rows: seq<Row>, ids: seq<string>)
    requires rows != []
    requires forall i, j | 0 <= i < j < |ids| :: ids[i] != ids[j]
    ensures PointCount(rows, ids) == PointCount(rows[..|rows| - 1], ids) + if rows[|rows| - 1].deviceId in ids then 1 else 0
    decreases ids
  {
    if ids != [] {
      CountStep(rows, ids[1..]);
      assert ids == [ids[0]] + ids[1..];
    }
  }

  lemma {:induction false} CountAppend(rows: seq<Row>, ids: seq<string>, id: string)
    ensures PointCount(rows, ids + [id]) == PointCount(rows, ids) + |RowsOf(rows, id)|
    decreases ids
  {
    hide RowsOf;
    if ids == [] {
      assert ids + [id] == [id] && [id][1..] == [];
    } else {
      assert (ids + [id])[1..] == ids[1..] + [id];
      CountAppend(rows, ids[1..], id);
    }
  }

  /** Every row becomes exactly one point. */
  lemma {:induction false} RowsConserved(rows: seq<Row>)
    ensures PointCount(rows, Ids(rows)) == |rows|
    decreases |rows|
  {
    if rows == [] {
    } else {
      var before, id := rows[..|rows| - 1], rows[|rows| - 1].deviceId;
      RowsConserved(before);
      IdsAreGroups(before);
      CountStep(rows, Ids(before));
      if id !in Ids(before) {
        CountAppend(rows, Ids(before), id);
      }
    }
  }
}
