/** Suppression of unchanged readings in front of the storage
    (the handler installed in internal/collector/manager.go). */
module Dedup {
  import opened Floats
  import opened Cache
  import opened Keys
  import opened Options

  // ---------------------------------------------------------------------------
  // Near equality
  // ---------------------------------------------------------------------------

  const EPSILON: real := 0.000000001

  /** `FloatsEqual`.  With an infinity the difference or the quotient is infinite or NaN, so only
      equal infinities pass; NaN equals nothing. */
  predicate FloatsEqual(a: F64, b: F64) {
    match (a, b)
    case (Fin(x), Fin(y)) =>
      if x == y then true
      else
        var da, db, diff := Abs(x), Abs(y), Abs(x - y);
        if da == 0.0 || db == 0.0 then diff < EPSILON
        else diff / (if da > db then da else db) < EPSILON
    case (Inf(n), Inf(m)) => n == m
    case _ => false
  }

  /** Near equality does not chain: comparing with the last reading seen would drift. */
  lemma FloatsEqualDrifts()
    ensures exists a, b, c :: FloatsEqual(a, b) && FloatsEqual(b, c) && !FloatsEqual(a, c)
  {
    var p, q, r := Fin(1.0), Fin(1.0000000009), Fin(1.0000000018);
    assert FloatsEqual(p, q);
    assert FloatsEqual(q, r);
    assert !FloatsEqual(p, r);
  }

  lemma QuotientBelow(diff: real, larger: real)
    requires larger > 0.0
    ensures diff / larger < 0.000000001 <==> 1_000_000_000.0 * diff < larger
  {
    var q := diff / larger;
    assert q * larger == diff;
    if q < 0.000000001 {
      assert q * larger < 0.000000001 * larger;
    } else {
      assert q * larger >= 0.000000001 * larger;
    }
  }

  /** The tolerance in numbers: less than one part in 10^9 of the larger of the two, or, next to zero,
      less than 10^-9.  NaN is near nothing, and an infinity only to itself. */
  lemma FloatsEqualOnNumbers(a: F64, b: F64)
    ensures a.NaN? || b.NaN? ==> !FloatsEqual(a, b)
    ensures a.Inf? || b.Inf? ==> (FloatsEqual(a, b) <==> a == b)
    ensures a.Fin? && b.Fin? ==>
              var x, y := a.x, b.x;
              var gap, larger := if x < y then y - x else x - y, Larger(if x < 0.0 then -x else x, if y < 0.0 then -y else y);
              (FloatsEqual(a, b)
               <==> x == y || (if x == 0.0 || y == 0.0 then gap < 0.000000001 else 1_000_000_000.0 * gap < larger))
  {
    if a.Fin? && b.Fin? && a.x != 0.0 && b.x != 0.0 {
      QuotientBelow(Abs(a.x - b.x), Larger(Abs(a.x), Abs(b.x)));
    }
  }

  function Larger(a: real, b: real): real {
    if a > b then a else b
  }

  // ---------------------------------------------------------------------------
  // Handlers of many collectors, interleaved
  // ---------------------------------------------------------------------------

  /** A collector goroutine; it handles one reading at a time. */
  type Caller = nat

  /** A value handed to the storage, with the point it was read from. */
  datatype Stored = Stored(point: Point, v: F64)

  /** Where the handler of a caller is: it missed the cache, or it has stored the value. */
  datatype Phase = Missed(p: Point, v: F64, seenAt: Time) | Kept(p: Point, v: F64, seenAt: Time)

  /** A reading whose handler returned without an error, and the value that stands for it.
      `since` is when that value was cached; for a value just stored it is the present. */
  datatype Done = Done(point: Point, v: F64, standIn: F64, since: Time, seenAt: Time, suppressed: bool)

  datatype System = System(cache: State, stored: seq<Stored>, busy: map<Caller, Phase>, done: seq<Done>, now: Time)

  function Start(ttl: Time): System {
    System(State(Effective(ttl), map[]), [], map[], [], 0)
  }

  datatype Event =
    | Look(c: Caller, p: Point, v: F64, now: Time)   // GetValue and the comparison
    | Store(c: Caller, ok: bool)                     // storeHandler returned
    | Update(c: Caller, now: Time)                   // SetValue

  /** One reading per caller at a time, and a clock that does not go back. */
  predicate Possible(s: System, e: Event) {
    match e
    case Look(c, _, _, now) => c !in s.busy && s.now <= now
    case Store(c, _) => c in s.busy && s.busy[c].Missed?
    case Update(c, now) => c in s.busy && s.busy[c].Kept? && s.now <= now
  }

  predicate Suppressed(c: State, key: string, v: F64, now: Time) {
    Lookup(c, key, now).Some? && FloatsEqual(Lookup(c, key, now).value, v)
  }

  function Step(s: System, e: Event): System
    requires Possible(s, e)
  {
    match e
    case Look(c, p, v, now) =>
      var key := Key(p.names);
      var cleaned := Cleaned(s.cache, key, now);
      if Suppressed(s.cache, key, v, now) then
        s.(cache := cleaned, now := now,
           done := s.done + [Done(p, v, Lookup(s.cache, key, now).value, s.cache.data[key].at, now, true)])
      else s.(cache := cleaned, now := now, busy := s.busy[c := Missed(p, v, now)])
    case Store(c, ok) =>
      var Missed(p, v, seenAt) := s.busy[c];
      if ok then s.(stored := s.stored + [Stored(p, v)], busy := s.busy[c := Kept(p, v, seenAt)])
      else s.(busy := s.busy - {c})
    case Update(c, now) =>
      var Kept(p, v, seenAt) := s.busy[c];
      s.(cache := s.cache.(data := s.cache.data[Key(p.names) := Entry(v, now)]), busy := s.busy - {c}, now := now,
         done := s.done + [Done(p, v, v, now, seenAt, false)])
  }

  predicate IsRun(s: System, es: seq<Event>)
    decreases es
  {
    es == [] || (Possible(s, es[0]) && IsRun(Step(s, es[0]), es[1..]))
  }

  function After(s: System, es: seq<Event>): System
    requires IsRun(s, es)
    decreases es
  {
    if es == [] then s else After(Step(s, es[0]), es[1..])
  }

  // ---------------------------------------------------------------------------
  // No drift
  // ---------------------------------------------------------------------------

  /** Some reading was itself stored with this value and cached at this time. */
  ghost predicate Source(done: seq<Done>, key: string, v: F64, at: Time) {
    exists i :: 0 <= i < |done| && !done[i].suppressed && Key(done[i].point.names) == key && done[i].v == v && done[i].since == at
  }

  /** A reading not suppressed was stored; a suppressed one is near a value of its key, and no later
      than the ttl after the reading with that value was stored and cached. */
  ghost predicate DoneOk(s: System, d: Done) {
    if d.suppressed then
      FloatsEqual(d.standIn, d.v) && 0 <= d.seenAt - d.since <= s.cache.ttl && Source(s.done, Key(d.point.names), d.standIn, d.since)
    else d.standIn == d.v && Stored(d.point, d.v) in s.stored
  }

  ghost predicate Inv(s: System) {
    && (forall key | key in s.cache.data ::
          s.cache.data[key].at <= s.now && Source(s.done, key, s.cache.data[key].v, s.cache.data[key].at))
    && (forall c | c in s.busy && s.busy[c].Kept? :: Stored(s.busy[c].p, s.busy[c].v) in s.stored)
    && (forall d | d in s.done :: DoneOk(s, d))
  }

  lemma SourceKept(done: seq<Done>, d: Done, key: string, v: F64, at: Time)
    requires Source(done, key, v, at)
    ensures Source(done + [d], key, v, at)
  {
    hide Key;
    var i :| 0 <= i < |done| && !done[i].suppressed && Key(done[i].point.names) == key && done[i].v == v && done[i].since == at;
    assert (done + [d])[i] == done[i];
  }

  lemma DoneKept(s: System, s': System, d: Done)
    requires DoneOk(s, d) && s'.cache.ttl == s.cache.ttl
    requires forall r | r in s.stored :: r in s'.stored
    requires s'.done == s.done || (|s'.done| == |s.done| + 1 && s'.done[..|s.done|] == s.done)
    ensures DoneOk(s', d)
  {
    hide Source, FloatsEqual, Key;
    if d.suppressed && s'.done != s.done {
      assert s'.done == s.done + [s'.done[|s.done|]];
      SourceKept(s.done, s'.done[|s.done|], Key(d.point.names), d.standIn, d.since);
    }
  }

  lemma LookInv(s: System, e: Event)
    requires Inv(s) && Possible(s, e) && e.Look?
    ensures Inv(Step(s, e))
  {
    hide FloatsEqual, Source, Key;
    var s' := Step(s, e);
    forall d | d in s.done
      ensures DoneOk(s', d)
    {
      DoneKept(s, s', d);
    }
    if s'.done != s.done {
      var d := s'.done[|s.done|];
      forall key | key in s.cache.data
        ensures Source(s'.done, key, s.cache.data[key].v, s.cache.data[key].at)
      {
        SourceKept(s.done, d, key, s.cache.data[key].v, s.cache.data[key].at);
      }
      assert DoneOk(s', d);
    }
  }

  lemma StoreInv(s: System, e: Event)
    requires Inv(s) && Possible(s, e) && e.Store?
    ensures Inv(Step(s, e))
  {
    hide FloatsEqual, Source, Key;
    var s' := Step(s, e);
    forall d | d in s.done
      ensures DoneOk(s', d)
    {
      DoneKept(s, s', d);
    }
  }

  /** The reading just stored and cached is its own source. */
  lemma NewSource(done: seq<Done>, d: Done)
    requires !d.suppressed
    ensures Source(done + [d], Key(d.point.names), d.v, d.since)
  {
    hide Key;
    assert (done + [d])[|done|] == d;
  }

  lemma UpdateInv(s: System, e: Event)
    requires Inv(s) && Possible(s, e) && e.Update?
    ensures Inv(Step(s, e))
  {
    hide FloatsEqual, Source, Key;
    var s' := Step(s, e);
    var d := s'.done[|s.done|];
    NewSource(s.done, d);
    forall x | x in s.done
      ensures DoneOk(s', x)
    {
      DoneKept(s, s', x);
    }
    assert DoneOk(s', d);
    hide DoneOk;
    forall key | key in s.cache.data
      ensures Source(s'.done, key, s.cache.data[key].v, s.cache.data[key].at)
    {
      SourceKept(s.done, d, key, s.cache.data[key].v, s.cache.data[key].at);
    }
  }

  lemma StepInv(s: System, e: Event)
    requires Inv(s) && Possible(s, e)
    ensures Inv(Step(s, e)) && Step(s, e).cache.ttl == s.cache.ttl
  {
    hide Inv;
    match e {
      case Look(_, _, _, _) => LookInv(s, e);
      case Store(_, _) => StoreInv(s, e);
      case Update(_, _) => UpdateInv(s, e);
    }
  }

  lemma {:induction false} RunInv(s: System, es: seq<Event>)
    requires Inv(s) && IsRun(s, es)
    ensures Inv(After(s, es)) && After(s, es).cache.ttl == s.cache.ttl
    decreases es
  {
    hide Inv, Step, Possible;
    if es != [] {
      StepInv(s, es[0]);
      RunInv(Step(s, es[0]), es[1..]);
    }
  }

  lemma StartInv(ttl: Time)
    ensures Inv(Start(ttl)) && Start(ttl).cache.ttl == Effective(ttl)
  {
  }

  lemma InvDone(s: System, d: Done)
    requires Inv(s) && d in s.done
    ensures DoneOk(s, d)
  {
  }

  /** The recorded value may stand for the reading. */
  predicate StandsFor(v: F64, d: Done, ttl: Time) {
    v == d.v || (d.suppressed && FloatsEqual(v, d.v) && 0 <= d.seenAt - d.since <= ttl)
  }

  /** The record that stands for a reading, and the reading it was made of. */
  lemma RecordOf(s: System, d: Done) returns (maker: Done)
    requires Inv(s) && d in s.done
    ensures maker in s.done && !maker.suppressed && Key(maker.point.names) == Key(d.point.names)
    ensures Stored(maker.point, maker.v) in s.stored && StandsFor(maker.v, d, s.cache.ttl)
  {
    hide FloatsEqual, Key, Inv;
    InvDone(s, d);
    if d.suppressed {
      var i :| 0 <= i < |s.done| && !s.done[i].suppressed && Key(s.done[i].point.names) == Key(d.point.names)
               && s.done[i].v == d.standIn && s.done[i].since == d.since;
      maker := s.done[i];
      InvDone(s, maker);
    } else {
      maker := d;
    }
  }

  /** In every interleaving of any callers, each reading handled without an error is stood for by a
      stored record of its key: itself, or a near one cached at most `ttl` before. */
  lemma NoDrift(ttl: Time, es: seq<Event>, d: Done)
    requires IsRun(Start(ttl), es) && d in After(Start(ttl), es).done
    ensures DoneOk(After(Start(ttl), es), d)
    ensures exists r | r in After(Start(ttl), es).stored ::
              Key(r.point.names) == Key(d.point.names) && StandsFor(r.v, d, Effective(ttl))
  {
    hide Inv, Start, Step, Possible, DoneOk, StandsFor, Key, Effective;
    StartInv(ttl);
    RunInv(Start(ttl), es);
    var s := After(Start(ttl), es);
    InvDone(s, d);
    var maker := RecordOf(s, d);
    assert Stored(maker.point, maker.v) in s.stored;
  }

  /** After a failed store the same value is not suppressed: it is handed to the storage again. */
  lemma FailedStoreRetried(s: System, c: Caller, p: Point, v: F64, t0: Time, t1: Time)
    requires Possible(s, Look(c, p, v, t0)) && !Suppressed(s.cache, Key(p.names), v, t0) && t0 <= t1
    ensures var s1 := Step(s, Look(c, p, v, t0));
            && Possible(s1, Store(c, false))
            && (var s2 := Step(s1, Store(c, false));
                && s2.cache == s1.cache && s2.stored == s.stored
                && Possible(s2, Look(c, p, v, t1))
                && !Suppressed(s2.cache, Key(p.names), v, t1))
  {
    hide FloatsEqual, Key;
  }

  // ---------------------------------------------------------------------------
  // The handler
  // ---------------------------------------------------------------------------

  class Handler {
    const cache: ValueCache
    /** The values the storage accepted. */
    var stored: seq<Stored>

    constructor (ttl: Time)
      ensures cache.View() == Start(ttl).cache && stored == [] && fresh(cache)
    {
      cache := new ValueCache(ttl);
      stored := [];
    }

    /** `OnValue` for a reading of one point: `stores` is whether the storage accepts the value,
        `seen` and `updated` are the clock at the lookup and at the update. */
    method OnValue(p: Point, v: F64, seen: Time, stores: bool, updated: Time) returns (failed: bool)
      modifies this`stored, cache
      ensures (failed, cache.View(), stored) == Handled(old(cache.View()), old(stored), p, v, seen, stores, updated)
    {
      hide FloatsEqual, Key;
      var key := Key(p.names);
      var old_, ok := cache.GetValue(key, seen);
      if ok && FloatsEqual(old_, v) {
        return false;
      }
      if !stores {
        return true;
      }
      stored := stored + [Stored(p, v)];
      cache.SetValue(key, v, updated);
      return false;
    }
  }

  function Handled(c: State, stored: seq<Stored>, p: Point, v: F64, seen: Time, stores: bool, updated: Time): (bool, State, seq<Stored>) {
    var key := Key(p.names);
    var cleaned := Cleaned(c, key, seen);
    if Suppressed(c, key, v, seen) then (false, cleaned, stored)
    else if !stores then (true, cleaned, stored)
    else (false, cleaned.(data := cleaned.data[key := Entry(v, updated)]), stored + [Stored(p, v)])
  }

  /** A reading farther than the tolerance from its cached value, or without one within the ttl, is
      handed to the storage, and stored if that accepts it; a nearer one is not. */
  lemma HandledOnNumbers(c: State, stored: seq<Stored>, p: Point, v: F64, seen: Time, stores: bool, updated: Time)
    ensures var key := Key(p.names);
            var (failed, c', stored') := Handled(c, stored, p, v, seen, stores, updated);
            if key in c.data && seen - c.data[key].at <= c.ttl && FloatsEqual(c.data[key].v, v) then !failed && c' == c && stored' == stored
            else if stores then
              && !failed && stored' == stored + [Stored(p, v)]
              && c'.ttl == c.ttl && c'.data == c.data[key := Entry(v, updated)]
            else failed && stored' == stored && (forall k | k in c'.data :: k in c.data && c'.data[k] == c.data[k])
  {
    hide FloatsEqual, Key;
  }

  /** The same with the tolerance written out: a number that differs from the cached one by a part in
      10^9 of the larger of the two, or next to zero by 10^-9, is stored whenever the storage accepts it. */
  lemma FarReadingsAreStored(c: State, stored: seq<Stored>, p: Point, x: real, y: real, seen: Time, updated: Time)
    requires Key(p.names) in c.data && c.data[Key(p.names)].v == Fin(x) && x != y
    requires var gap, larger := if x < y then y - x else x - y, Larger(if x < 0.0 then -x else x, if y < 0.0 then -y else y);
             if x == 0.0 || y == 0.0 then gap >= 0.000000001 else 1_000_000_000.0 * gap >= larger
    ensures Handled(c, stored, p, Fin(y), seen, true, updated).2 == stored + [Stored(p, Fin(y))]
  {
    hide FloatsEqual, Key, Handled;
    FloatsEqualOnNumbers(Fin(x), Fin(y));
    HandledOnNumbers(c, stored, p, Fin(y), seen, true, updated);
  }

  /** One undisturbed call of the handler is one of the interleavings. */
  lemma HandledIsRun(s: System, c: Caller, p: Point, v: F64, seen: Time, stores: bool, updated: Time)
    requires c !in s.busy && s.now <= seen <= updated
    ensures var es := if Suppressed(s.cache, Key(p.names), v, seen) then [Look(c, p, v, seen)]
                      else if !stores then [Look(c, p, v, seen), Store(c, false)]
                      else [Look(c, p, v, seen), Store(c, true), Update(c, updated)];
            && IsRun(s, es)
            && (var s' := After(s, es);
                && s'.busy == s.busy
                && s'.cache == Handled(s.cache, s.stored, p, v, seen, stores, updated).1
                && s'.stored == Handled(s.cache, s.stored, p, v, seen, stores, updated).2)
  {
    hide FloatsEqual, Key;
    var look, store, update := Look(c, p, v, seen), Store(c, stores), Update(c, updated);
    var s1 := Step(s, look);
    NoEvents(s1);
    if Suppressed(s.cache, Key(p.names), v, seen) {
      assert [look][1..] == [];
    } else {
      var s2 := Step(s1, store);
      NoEvents(s2);
      if !stores {
        assert s2.busy == s.busy;
        OneEvent(s1, store, []);
        OneEvent(s, look, [store]);
        assert [store] + [] == [store];
      } else {
        var s3 := Step(s2, update);
        NoEvents(s3);
        assert s3.busy == s.busy;
        OneEvent(s2, update, []);
        OneEvent(s1, store, [update]);
        OneEvent(s, look, [store, update]);
        assert [update] + [] == [update];
      }
    }
  }

  lemma NoEvents(s: System)
    ensures IsRun(s, []) && After(s, []) == s
  {
  }

  lemma OneEvent(s: System, e: Event, es: seq<Event>)
    requires Possible(s, e) && IsRun(Step(s, e), es)
    ensures IsRun(s, [e] + es) && After(s, [e] + es) == After(Step(s, e), es)
  {
    hide Step, Possible;
    assert ([e] + es)[1..] == es;
  }
}
