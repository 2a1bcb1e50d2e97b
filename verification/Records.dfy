/** Which record stands for a reading when points share a cache key: whose it is, and whether the
    reading is compared with the last value stored (internal/collector/manager.go). */
module Records {
  import opened Floats
  import opened Cache
  import opened Options
  import opened Keys
  import opened Dedup

  // ---------------------------------------------------------------------------
  // Records of the point itself
  // ---------------------------------------------------------------------------

  /** The callers are the collectors of the fleet, and read the points of their device. */
  predicate ByFleet(fleet: Fleet, es: seq<Event>) {
    forall e | e in es && e.Look? :: Polls(fleet, e.c, e.p)
  }

  ghost predicate OfFleet(fleet: Fleet, p: Point) {
    exists c :: Polls(fleet, c, p)
  }

  ghost predicate AllOfFleet(fleet: Fleet, s: System) {
    && (forall c | c in s.busy :: Polls(fleet, c, s.busy[c].p))
    && (forall d | d in s.done :: OfFleet(fleet, d.point))
  }

  lemma FleetStep(fleet: Fleet, s: System, e: Event)
    requires AllOfFleet(fleet, s) && Possible(s, e) && (e.Look? ==> Polls(fleet, e.c, e.p))
    ensures AllOfFleet(fleet, Step(s, e))
  {
    hide Polls, FloatsEqual, Key;
    if e.Update? {
      assert OfFleet(fleet, s.busy[e.c].p);
    }
  }

  lemma {:induction false} FleetRun(fleet: Fleet, s: System, es: seq<Event>)
    requires AllOfFleet(fleet, s) && IsRun(s, es) && ByFleet(fleet, es)
    ensures AllOfFleet(fleet, After(s, es))
    decreases es
  {
    hide AllOfFleet, Step, Possible, Polls;
    if es != [] {
      assert es[0] in es && forall e | e in es[1..] :: e in es;
      FleetStep(fleet, s, es[0]);
      FleetRun(fleet, Step(s, es[0]), es[1..]);
    }
  }

  /** The reading has a record of its own point. */
  ghost predicate OwnRecord(stored: seq<Stored>, d: Done, ttl: Time) {
    exists r | r in stored :: r.point == d.point && StandsFor(r.v, d, ttl)
  }

  ghost predicate AllOwnRecords(fleet: Fleet, ttl: Time, es: seq<Event>) {
    IsRun(Start(ttl), es) && ByFleet(fleet, es) ==>
      forall d | d in After(Start(ttl), es).done :: OwnRecord(After(Start(ttl), es).stored, d, Effective(ttl))
  }

  lemma ApartGivesOwn(fleet: Fleet, ttl: Time, es: seq<Event>)
    requires KeysApart(fleet)
    ensures AllOwnRecords(fleet, ttl, es)
  {
    hide Inv, Start, Step, Possible, StandsFor, Key, Effective, IsRun, ByFleet, Polls;
    if IsRun(Start(ttl), es) && ByFleet(fleet, es) {
      StartInv(ttl);
      RunInv(Start(ttl), es);
      NobodyYet(fleet, ttl);
      FleetRun(fleet, Start(ttl), es);
      var s := After(Start(ttl), es);
      forall d | d in s.done
        ensures OwnRecord(s.stored, d, Effective(ttl))
      {
        var maker := RecordOf(s, d);
        assert OfFleet(fleet, maker.point) && OfFleet(fleet, d.point);
        assert maker.point == d.point;
        assert Stored(maker.point, maker.v) in s.stored;
      }
    }
  }

  lemma NobodyYet(fleet: Fleet, ttl: Time)
    ensures AllOfFleet(fleet, Start(ttl))
  {
  }

  /** Two callers that read the same value at once, the second from another point with the key of
      the first one's. */
  function Hidden(c: Caller, p: Point, c': Caller, p': Point): seq<Event> {
    [Look(c, p, Fin(0.0), 0), Store(c, true), Update(c, 0), Look(c', p', Fin(0.0), 0)]
  }

  /** The second point's reading is handled without an error and leaves no record of that point. */
  lemma HiddenIsLost(ttl: Time, c: Caller, p: Point, c': Caller, p': Point)
    requires Key(p.names) == Key(p'.names)
    ensures IsRun(Start(ttl), Hidden(c, p, c', p'))
    ensures var s := After(Start(ttl), Hidden(c, p, c', p'));
            s.stored == [Stored(p, Fin(0.0))] && Done(p', Fin(0.0), Fin(0.0), 0, 0, true) in s.done
  {
    hide Key;
    var es := Hidden(c, p, c', p');
    var s0 := Start(ttl);
    var s1 := Step(s0, es[0]);
    var s2 := Step(s1, es[1]);
    var s3 := Step(s2, es[2]);
    assert s3.busy == map[] && s3.cache.data == map[Key(p.names) := Entry(Fin(0.0), 0)];
    var s4 := Step(s3, es[3]);
    assert s4.done[1] == Done(p', Fin(0.0), Fin(0.0), 0, 0, true);
    OneEvent(s3, es[3], []);
    OneEvent(s2, es[2], [es[3]]);
    OneEvent(s1, es[1], [es[2], es[3]]);
    OneEvent(s0, es[0], [es[1], es[2], es[3]]);
    assert [es[3]] + [] == [es[3]];
    assert [es[0]] + [es[1], es[2], es[3]] == es;
  }

  /** Every reading of a fleet that is handled without an error has a record of its own point, in
      every run, exactly when no two different points of the fleet share a key. */
  lemma OwnRecordsExactly(fleet: Fleet)
    ensures (forall ttl, es :: AllOwnRecords(fleet, ttl, es)) <==> KeysApart(fleet)
  {
    hide AllOwnRecords, Polls, Key;
    if KeysApart(fleet) {
      forall ttl, es
        ensures AllOwnRecords(fleet, ttl, es)
      {
        ApartGivesOwn(fleet, ttl, es);
      }
    } else {
      var c, p, c', p' :| Polls(fleet, c, p) && Polls(fleet, c', p') && Key(p.names) == Key(p'.names) && p != p';
      SharedLoses(fleet, c, p, c', p');
      assert !AllOwnRecords(fleet, HOUR, Hidden(c, p, c', p'));
    }
  }

  lemma SharedLoses(fleet: Fleet, c: Caller, p: Point, c': Caller, p': Point)
    requires Polls(fleet, c, p) && Polls(fleet, c', p') && Key(p.names) == Key(p'.names) && p != p'
    ensures !AllOwnRecords(fleet, HOUR, Hidden(c, p, c', p'))
  {
    hide IsRun, After, Start, Polls, Key, StandsFor;
    HiddenIsLost(HOUR, c, p, c', p');
    var es := Hidden(c, p, c', p');
    assert ByFleet(fleet, es);
    var d := Done(p', Fin(0.0), Fin(0.0), 0, 0, true);
    assert !OwnRecord(After(Start(HOUR), es).stored, d, Effective(HOUR));
  }

  /** Two points of one device with the same name and register type at different addresses share
      their key, whatever the names are, plain ones too, and lose a reading. */
  lemma SameNameTwice(n: Names)
    ensures Plain(Names("D", "temp", Holding, "S"))
    ensures var a := Point(n, 1, "uint16", "ABCD", Fin(1.0), Fin(0.0));
            var b := Point(n, 2, "uint16", "ABCD", Fin(1.0), Fin(0.0));
            !KeysApart([[a, b]]) && !AllOwnRecords([[a, b]], HOUR, Hidden(0, a, 0, b))
  {
    hide AllOwnRecords, Key;
    var a := Point(n, 1, "uint16", "ABCD", Fin(1.0), Fin(0.0));
    var b := Point(n, 2, "uint16", "ABCD", Fin(1.0), Fin(0.0));
    assert Polls([[a, b]], 0, a) && Polls([[a, b]], 0, b) && Key(a.names) == Key(b.names);
    SharedLoses([[a, b]], 0, a, 0, b);
  }

  // ---------------------------------------------------------------------------
  // The last stored value
  // ---------------------------------------------------------------------------

  function LastStored(stored: seq<Stored>, key: string): Option<F64>
    decreases |stored|
  {
    if stored == [] then None
    else if Key(stored[|stored| - 1].point.names) == key then Some(stored[|stored| - 1].v)
    else LastStored(stored[..|stored| - 1], key)
  }

  lemma LastStoredAppend(stored: seq<Stored>, r: Stored, key: string)
    ensures LastStored(stored + [r], key) == if Key(r.point.names) == key then Some(r.v) else LastStored(stored, key)
  {
    hide Key;
    assert (stored + [r])[..|stored|] == stored;
  }

  /** No key is shared by points of two collectors. */
  ghost predicate CallersApart(fleet: Fleet) {
    forall c, p, c', p' | Polls(fleet, c, p) && Polls(fleet, c', p') && Key(p.names) == Key(p'.names) :: c == c'
  }

  /** Somebody has stored a value of this key and not yet updated the cache. */
  ghost predicate Updating(s: System, key: string) {
    exists c :: c in s.busy && s.busy[c].Kept? && Key(s.busy[c].p.names) == key
  }

  /** Outside an update the cache has what was stored last, and an update will put it there. */
  ghost predicate Settled(s: System) {
    && (forall key | key in s.cache.data && !Updating(s, key) :: LastStored(s.stored, key) == Some(s.cache.data[key].v))
    && (forall c | c in s.busy && s.busy[c].Kept? :: LastStored(s.stored, Key(s.busy[c].p.names)) == Some(s.busy[c].v))
  }

  lemma LookSettles(fleet: Fleet, s: System, e: Event)
    requires Settled(s) && AllOfFleet(fleet, s) && Possible(s, e) && e.Look?
    ensures Settled(Step(s, e))
  {
    hide FloatsEqual, Key, Polls, LastStored;
    var s' := Step(s, e);
    forall key | Updating(s, key)
      ensures Updating(s', key)
    {
      var c :| c in s.busy && s.busy[c].Kept? && Key(s.busy[c].p.names) == key;
      assert c in s'.busy && s'.busy[c] == s.busy[c];
    }
  }

  lemma StoreSettles(fleet: Fleet, s: System, e: Event)
    requires Settled(s) && AllOfFleet(fleet, s) && CallersApart(fleet) && Possible(s, e) && e.Store?
    ensures Settled(Step(s, e))
  {
    hide FloatsEqual, Key, Polls, LastStored;
    var s' := Step(s, e);
    var Missed(p, v, seenAt) := s.busy[e.c];
    if e.ok {
      forall key
        ensures LastStored(s'.stored, key) == if Key(p.names) == key then Some(v) else LastStored(s.stored, key)
      {
        LastStoredAppend(s.stored, Stored(p, v), key);
      }
      assert s'.busy[e.c] == Kept(p, v, seenAt) && Key(s'.busy[e.c].p.names) == Key(p.names);
      assert Updating(s', Key(p.names));
    }
    forall key | Updating(s, key)
      ensures Updating(s', key)
    {
      var c :| c in s.busy && s.busy[c].Kept? && Key(s.busy[c].p.names) == key;
      assert c in s'.busy && s'.busy[c] == s.busy[c];
    }
  }

  /** Removing one caller leaves the updates of other keys. */
  lemma StillUpdating(s: System, s': System, c: Caller, key: string)
    requires c in s.busy && Key(s.busy[c].p.names) != key && s'.busy == s.busy - {c}
    ensures Updating(s, key) ==> Updating(s', key)
  {
    hide Key;
    if Updating(s, key) {
      var u :| u in s.busy && s.busy[u].Kept? && Key(s.busy[u].p.names) == key;
      assert u in s'.busy && s'.busy[u] == s.busy[u];
    }
  }

  lemma UpdateSettles(fleet: Fleet, s: System, e: Event)
    requires Settled(s) && AllOfFleet(fleet, s) && CallersApart(fleet) && Possible(s, e) && e.Update?
    ensures Settled(Step(s, e))
  {
    hide FloatsEqual, Key, Polls, LastStored;
    var s' := Step(s, e);
    var updated := Key(s.busy[e.c].p.names);
    forall key | key in s'.cache.data && !Updating(s', key)
      ensures LastStored(s'.stored, key) == Some(s'.cache.data[key].v)
    {
      if key != updated {
        assert !Updating(s, key) by {
          StillUpdating(s, s', e.c, key);
        }
      }
    }
  }

  /** The last stored value of a reading's key, when nobody else can be busy with it, is what the
      reading is compared with. */
  ghost predicate Compared(s: System, e: Event) {
    e.Look? && Suppressed(s.cache, Key(e.p.names), e.v, e.now) ==>
      var last := LastStored(s.stored, Key(e.p.names));
      last.Some? && FloatsEqual(last.value, e.v)
  }

  lemma SettledCompares(fleet: Fleet, s: System, e: Event)
    requires Settled(s) && AllOfFleet(fleet, s) && CallersApart(fleet)
    requires Possible(s, e) && e.Look? && Polls(fleet, e.c, e.p)
    ensures Compared(s, e)
  {
    hide FloatsEqual, Key, Polls, LastStored;
  }

  ghost predicate AllCompared(s: System, es: seq<Event>)
    requires IsRun(s, es)
    decreases es
  {
    es == [] || (Compared(s, es[0]) && AllCompared(Step(s, es[0]), es[1..]))
  }

  lemma SettledStep(fleet: Fleet, s: System, e: Event)
    requires Settled(s) && AllOfFleet(fleet, s) && CallersApart(fleet)
    requires Possible(s, e) && (e.Look? ==> Polls(fleet, e.c, e.p))
    ensures Settled(Step(s, e)) && Compared(s, e)
  {
    hide Settled, AllOfFleet, CallersApart, Compared, Step;
    match e {
      case Look(_, _, _, _) =>
        LookSettles(fleet, s, e);
        SettledCompares(fleet, s, e);
      case Store(_, _) =>
        StoreSettles(fleet, s, e);
        OnlyLooks(s, e);
      case Update(_, _) =>
        UpdateSettles(fleet, s, e);
        OnlyLooks(s, e);
    }
  }

  lemma OnlyLooks(s: System, e: Event)
    requires !e.Look?
    ensures Compared(s, e)
  {
  }

  lemma {:induction false} ApartCompares(fleet: Fleet, s: System, es: seq<Event>)
    requires Settled(s) && AllOfFleet(fleet, s) && CallersApart(fleet)
    requires IsRun(s, es) && ByFleet(fleet, es)
    ensures AllCompared(s, es)
    decreases es
  {
    hide Settled, AllOfFleet, CallersApart, Compared, Step, Possible, Polls;
    if es != [] {
      assert es[0] in es && forall e | e in es[1..] :: e in es;
      SettledStep(fleet, s, es[0]);
      FleetStep(fleet, s, es[0]);
      ApartCompares(fleet, Step(s, es[0]), es[1..]);
    }
  }

  /** Two callers that store and then update in opposite orders, and a reading after them. */
  function Crossed(c: Caller, p: Point, c': Caller, p': Point): seq<Event> {
    [Look(c, p, Fin(0.0), 0), Look(c', p', Fin(1.0), 0), Store(c, true), Store(c', true), Update(c', 0), Update(c, 0),
     Look(c, p, Fin(0.0), 0)]
  }

  lemma CrossedMisses(ttl: Time, c: Caller, p: Point, c': Caller, p': Point)
    requires c != c' && Key(p.names) == Key(p'.names)
    ensures IsRun(Start(ttl), Crossed(c, p, c', p')) && !AllCompared(Start(ttl), Crossed(c, p, c', p'))
  {
    hide Key;
    var es := Crossed(c, p, c', p');
    var key := Key(p.names);
    var s1 := Step(Start(ttl), es[0]);
    var s2 := Step(s1, es[1]);
    var s3 := Step(s2, es[2]);
    var s4 := Step(s3, es[3]);
    var s5 := Step(s4, es[4]);
    var s6 := Step(s5, es[5]);
    assert s6.busy == map[] && s6.cache.data[key] == Entry(Fin(0.0), 0);
    assert s6.stored == [Stored(p, Fin(0.0)), Stored(p', Fin(1.0))];
    assert LastStored(s6.stored, key) == Some(Fin(1.0)) && !Compared(s6, es[6]);
    LastEvent(s6, es[6]);
    Prepend(s5, es[5], es[6..]);
    Prepend(s4, es[4], es[5..]);
    Prepend(s3, es[3], es[4..]);
    Prepend(s2, es[2], es[3..]);
    Prepend(s1, es[1], es[2..]);
    Prepend(Start(ttl), es[0], es[1..]);
  }

  lemma LastEvent(s: System, e: Event)
    requires Possible(s, e) && !Compared(s, e)
    ensures IsRun(s, [e]) && !AllCompared(s, [e])
  {
    hide Step, Possible, Compared;
    assert [e][1..] == [];
  }

  lemma Prepend(s: System, e: Event, es: seq<Event>)
    requires Possible(s, e) && IsRun(Step(s, e), es) && !AllCompared(Step(s, e), es)
    ensures IsRun(s, [e] + es) && !AllCompared(s, [e] + es)
  {
    hide Step, Possible, Compared;
    assert ([e] + es)[1..] == es;
  }

  ghost predicate AlwaysCompared(fleet: Fleet, ttl: Time, es: seq<Event>) {
    IsRun(Start(ttl), es) && ByFleet(fleet, es) ==> AllCompared(Start(ttl), es)
  }

  /** Every suppressed reading is near the last value stored for its key, in every run of a fleet,
      exactly when no two collectors share a key. */
  lemma ComparedExactly(fleet: Fleet)
    ensures (forall ttl, es :: AlwaysCompared(fleet, ttl, es)) <==> CallersApart(fleet)
  {
    hide AlwaysCompared, Polls, Key;
    if CallersApart(fleet) {
      forall ttl, es
        ensures AlwaysCompared(fleet, ttl, es)
      {
        ApartAlways(fleet, ttl, es);
      }
    } else {
      var c, p, c', p' :| Polls(fleet, c, p) && Polls(fleet, c', p') && Key(p.names) == Key(p'.names) && c != c';
      SharedMisses(fleet, c, p, c', p');
      assert !AlwaysCompared(fleet, HOUR, Crossed(c, p, c', p'));
    }
  }

  lemma ApartAlways(fleet: Fleet, ttl: Time, es: seq<Event>)
    requires CallersApart(fleet)
    ensures AlwaysCompared(fleet, ttl, es)
  {
    hide IsRun, AllCompared, Polls, Key, ByFleet, CallersApart;
    NobodyYet(fleet, ttl);
    if IsRun(Start(ttl), es) && ByFleet(fleet, es) {
      ApartCompares(fleet, Start(ttl), es);
    }
  }

  lemma SharedMisses(fleet: Fleet, c: Caller, p: Point, c': Caller, p': Point)
    requires Polls(fleet, c, p) && Polls(fleet, c', p') && Key(p.names) == Key(p'.names) && c != c'
    ensures !AlwaysCompared(fleet, HOUR, Crossed(c, p, c', p'))
  {
    hide IsRun, AllCompared, Polls, Key, Start;
    CrossedMisses(HOUR, c, p, c', p');
    assert ByFleet(fleet, Crossed(c, p, c', p'));
  }
}
