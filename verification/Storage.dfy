/** The bounded queue in front of the file and database writers
    (internal/collector/storage.go): producers offer values, one goroutine drains them
    into every enabled sink. */
module Storage {

  datatype Sinks = Sinks(json: bool, csv: bool, db: bool)

  /** A size that is not positive means the default. */
  function QueueSize(maxQueue: int): (cap: nat)
    ensures cap > 0
  {
    if maxQueue > 0 then maxQueue else 1000
  }

  /** A writer that is on has had the accepted values but for the pending ones, in order. */
  predicate Balanced<T(==)>(on: bool, sink: seq<T>, pending: seq<T>, accepted: seq<T>) {
    if on then sink + pending == accepted else sink == []
  }

  lemma Moved<T>(on: bool, sink: seq<T>, v: T, rest: seq<T>, accepted: seq<T>)
    requires Balanced(on, sink, [v] + rest, accepted)
    ensures Balanced(on, if on then sink + [v] else sink, rest, accepted)
  {
    assert sink + ([v] + rest) == sink + [v] + rest;
  }

  lemma Added<T>(on: bool, sink: seq<T>, pending: seq<T>, accepted: seq<T>, v: T)
    requires Balanced(on, sink, pending, accepted)
    ensures Balanced(on, sink, pending + [v], accepted + [v])
  {
    assert sink + (pending + [v]) == sink + pending + [v];
  }

  // ---------------------------------------------------------------------------
  // The storage object
  // ---------------------------------------------------------------------------

  /** How a call of `Handle` ends: without an error, with one, or with a Go panic. */
  datatype Outcome = Queued | Refused | Panicked

  class Storage<T(==)> {
    const cap: nat
    const enabled: Sinks
    var q: seq<T>
    var closed: bool
    /** The values handed to each writer. */
    var json: seq<T>
    var csv: seq<T>
    var db: seq<T>
    /** The values for which `Handle` returned no error. */
    ghost var accepted: seq<T>

    /** Between values: every enabled sink and the queue make up what was accepted. */
    ghost predicate Valid()
      reads this
    {
      && |q| <= cap && cap > 0
      && Balanced(enabled.json, json, q, accepted)
      && Balanced(enabled.csv, csv, q, accepted)
      && Balanced(enabled.db, db, q, accepted)
    }

    constructor (enabled: Sinks, maxQueue: int)
      ensures Valid() && !closed && accepted == [] && this.enabled == enabled && cap == QueueSize(maxQueue)
    {
      this.enabled, cap := enabled, QueueSize(maxQueue);
      q, closed, json, csv, db, accepted := [], false, [], [], [], [];
    }

    /** `Handle`: a value that finds room is queued at once.  Otherwise it waits up to two seconds;
        `room` is whether the drain loop takes a value meanwhile, so that the send succeeds.  A send
        on the closed queue panics. */
    method Handle(v: T, room: bool) returns (o: Outcome)
      requires Valid()
      modifies this
      ensures Valid() && closed == old(closed)
      ensures o == if closed then Panicked else if |old(q)| < cap || room then Queued else Refused
      ensures accepted == if o.Queued? then old(accepted) + [v] else old(accepted)
      ensures q == if o.Queued? then (if |old(q)| == cap then old(q)[1..] else old(q)) + [v] else old(q)
      ensures |old(q)| < cap || !o.Queued? ==> json == old(json) && csv == old(csv) && db == old(db)
    {
      if closed {
        return Panicked;
      }
      if |q| < cap {
        Enqueue(v);
        return Queued;
      }
      if room {
        DrainOne();
        Enqueue(v);
        return Queued;
      }
      return Refused;
    }

    /** A successful send on the queue. */
    method Enqueue(v: T)
      requires Valid() && !closed && |q| < cap
      modifies this`q, this`accepted
      ensures Valid() && q == old(q) + [v] && accepted == old(accepted) + [v]
    {
      hide Balanced;
      Added(enabled.json, json, q, accepted, v);
      Added(enabled.csv, csv, q, accepted, v);
      Added(enabled.db, db, q, accepted, v);
      q := q + [v];
      accepted := accepted + [v];
    }

    /** One turn of the drain loop. */
    method DrainOne()
      requires Valid() && q != []
      modifies this`q, this`json, this`csv, this`db
      ensures Valid() && q == old(q)[1..]
    {
      hide Balanced;
      var v := q[0];
      assert q == [v] + q[1..];
      Moved(enabled.json, json, v, q[1..], accepted);
      Moved(enabled.csv, csv, v, q[1..], accepted);
      Moved(enabled.db, db, v, q[1..], accepted);
      q := q[1..];
      if enabled.json {
        json := json + [v];
      }
      if enabled.csv {
        csv := csv + [v];
      }
      if enabled.db {
        db := db + [v];
      }
    }

    /** `Close` waits for the drain loop, which ends once the queue is empty. */
    method Close()
      requires Valid() && !closed
      modifies this
      ensures Valid() && closed && q == [] && accepted == old(accepted)
      ensures enabled.json ==> json == accepted
      ensures enabled.csv ==> csv == accepted
      ensures enabled.db ==> db == accepted
    {
      closed := true;
      while |q| > 0
        invariant Valid() && closed && accepted == old(accepted)
      {
        DrainOne();
      }
      assert json + q == json && csv + q == csv && db + q == db;
    }
  }

  // ---------------------------------------------------------------------------
  // Producers and the drain goroutine, interleaved
  // ---------------------------------------------------------------------------

  /** The value taken from the queue and the writers that have had it: JSON, CSV, database. */
  datatype Flight<T> = Empty | Holding(v: T, stage: nat) | Exited

  datatype System<T> = System(
    cap: nat, enabled: Sinks,
    queue: seq<T>, flight: Flight<T>, closed: bool, crashed: bool,
    json: seq<T>, csv: seq<T>, db: seq<T>,
    accepted: seq<T>)

  datatype Event<T> =
    | Accept(v: T)      // a send succeeds, at once or within the timeout
    | Drop(v: T)        // the timeout fires: Handle returns an error
    | Late(v: T)        // a send finds the queue closed: the program panics
    | Receive           // the drain loop takes the next value
    | Write             // it hands the value to the next writer, if enabled
    | Close             // close(q), by the owner, who waits five seconds for the producers
    | Exit              // the loop ends on a closed and empty queue

  predicate Possible<T>(s: System<T>, e: Event<T>) {
    && !s.crashed
    && match e
       case Accept(_) => !s.closed && |s.queue| < s.cap
       case Drop(_) => !s.closed
       case Late(_) => s.closed
       case Receive => s.flight.Empty? && s.queue != []
       case Write => s.flight.Holding?
       case Close => !s.closed
       case Exit => s.closed && s.flight.Empty? && s.queue == []
  }

  function Step<T>(s: System<T>, e: Event<T>): System<T>
    requires Possible(s, e)
  {
    match e
    case Accept(v) => s.(queue := s.queue + [v], accepted := s.accepted + [v])
    case Drop(_) => s
    case Late(_) => s.(crashed := true)
    case Receive => s.(queue := s.queue[1..], flight := Holding(s.queue[0], 0))
    case Write =>
      var Holding(v, k) := s.flight;
      if k == 0 then s.(json := if s.enabled.json then s.json + [v] else s.json, flight := Holding(v, 1))
      else if k == 1 then s.(csv := if s.enabled.csv then s.csv + [v] else s.csv, flight := Holding(v, 2))
      else s.(db := if s.enabled.db then s.db + [v] else s.db, flight := Empty)
    case Close => s.(closed := true)
    case Exit => s.(flight := Exited)
  }

  function Start<T>(cap: nat, enabled: Sinks): System<T> {
    System(cap, enabled, [], Empty, false, false, [], [], [], [])
  }

  /** What the `k`-th writer has still to get. */
  function Pending<T>(s: System<T>, k: nat): seq<T> {
    (if s.flight.Holding? && s.flight.stage <= k then [s.flight.v] else []) + s.queue
  }

  function SinkOf<T>(s: System<T>, k: nat): seq<T> {
    if k == 0 then s.json else if k == 1 then s.csv else s.db
  }

  predicate SinkEnabled<T>(s: System<T>, k: nat) {
    if k == 0 then s.enabled.json else if k == 1 then s.enabled.csv else s.enabled.db
  }

  /** Conservation: written, in flight and queued, in that order, are what was accepted. */
  predicate Conserved<T(==)>(s: System<T>, k: nat) {
    Balanced(SinkEnabled(s, k), SinkOf(s, k), Pending(s, k), s.accepted)
  }

  predicate Inv<T(==)>(s: System<T>) {
    && |s.queue| <= s.cap
    && (s.flight.Holding? ==> s.flight.stage <= 2)
    && (s.flight.Exited? ==> s.queue == [] && s.closed)
    && Conserved(s, 0) && Conserved(s, 1) && Conserved(s, 2)
  }

  lemma WriteKept<T>(s: System<T>, k: nat)
    requires Conserved(s, k) && Possible(s, Write) && s.flight.stage <= 2 && k <= 2
    ensures Conserved(Step(s, Write), k)
  {
    hide Balanced;
    var s' := Step(s, Write);
    if s.flight.stage == k {
      assert Pending(s, k) == [s.flight.v] + s.queue && Pending(s', k) == s.queue;
      Moved(SinkEnabled(s, k), SinkOf(s, k), s.flight.v, s.queue, s.accepted);
    } else {
      assert Pending(s', k) == Pending(s, k);
    }
  }

  lemma SinkStep<T>(s: System<T>, e: Event<T>, k: nat)
    requires Inv(s) && Possible(s, e) && k <= 2
    ensures Conserved(Step(s, e), k)
  {
    hide Balanced;
    assert Conserved(s, k);
    if e.Write? {
      hide Conserved, Step;
      WriteKept(s, k);
    } else {
      OtherKept(s, e, k);
    }
  }

  lemma OtherKept<T>(s: System<T>, e: Event<T>, k: nat)
    requires Conserved(s, k) && Possible(s, e) && !e.Write?
    ensures Conserved(Step(s, e), k)
  {
    hide Balanced, SinkEnabled;
    var s' := Step(s, e);
    assert SinkEnabled(s', k) == SinkEnabled(s, k) by {
      SameSinks(s, s', k);
    }
    if e.Accept? {
      Added(SinkEnabled(s, k), SinkOf(s, k), Pending(s, k), s.accepted, e.v);
      assert Pending(s', k) == Pending(s, k) + [e.v];
    } else {
      assert Pending(s', k) == Pending(s, k);
    }
  }

  lemma SameSinks<T>(s: System<T>, s': System<T>, k: nat)
    requires s'.enabled == s.enabled
    ensures SinkEnabled(s', k) == SinkEnabled(s, k)
  {
  }

  lemma StepInv<T>(s: System<T>, e: Event<T>)
    requires Inv(s) && Possible(s, e)
    ensures Inv(Step(s, e)) && Step(s, e).enabled == s.enabled
  {
    hide Conserved;
    SinkStep(s, e, 0);
    SinkStep(s, e, 1);
    SinkStep(s, e, 2);
  }

  predicate IsRun<T>(s: System<T>, es: seq<Event<T>>)
    decreases es
  {
    es == [] || (Possible(s, es[0]) && IsRun(Step(s, es[0]), es[1..]))
  }

  function After<T>(s: System<T>, es: seq<Event<T>>): System<T>
    requires IsRun(s, es)
    decreases es
  {
    if es == [] then s else After(Step(s, es[0]), es[1..])
  }

  /** The values of the successful sends of a run, in order. */
  function Accepts<T>(es: seq<Event<T>>): seq<T>
    decreases es
  {
    if es == [] then [] else (if es[0].Accept? then [es[0].v] else []) + Accepts(es[1..])
  }

  lemma {:induction false} RunInv<T>(s: System<T>, es: seq<Event<T>>)
    requires Inv(s) && IsRun(s, es)
    ensures Inv(After(s, es)) && After(s, es).enabled == s.enabled
    ensures After(s, es).accepted == s.accepted + Accepts(es)
    decreases es
  {
    hide Inv, Possible;
    if es != [] {
      StepInv(s, es[0]);
      RunInv(Step(s, es[0]), es[1..]);
      AcceptedStep(s, es[0]);
    }
  }

  lemma AcceptedStep<T>(s: System<T>, e: Event<T>)
    requires Possible(s, e)
    ensures Step(s, e).accepted == s.accepted + if e.Accept? then [e.v] else []
  {
  }

  lemma StartInv<T>(cap: nat, enabled: Sinks)
    ensures Inv(Start<T>(cap, enabled))
  {
  }

  /** At every point of every run, each enabled sink holds the first of the accepted values and
      lacks only those in flight and queued, in order; nothing is lost, duplicated or reordered. */
  lemma QueueConserves<T>(cap: nat, enabled: Sinks, es: seq<Event<T>>, k: nat)
    requires IsRun(Start<T>(cap, enabled), es) && k <= 2
    ensures var s := After(Start<T>(cap, enabled), es);
            if SinkEnabled(s, k) then SinkOf(s, k) + Pending(s, k) == Accepts(es) else SinkOf(s, k) == []
  {
    hide Start, IsRun, After, SinkOf, SinkEnabled, Pending, Step, Possible;
    StartInv<T>(cap, enabled);
    RunInv(Start<T>(cap, enabled), es);
    StartEmpty<T>(cap, enabled);
    assert [] + Accepts(es) == Accepts(es);
    assert Conserved(After(Start<T>(cap, enabled), es), k);
  }

  lemma StartEmpty<T>(cap: nat, enabled: Sinks)
    ensures Start<T>(cap, enabled).accepted == []
  {
  }

  /** Once the drain goroutine has ended, every enabled sink got exactly the accepted values. */
  lemma NothingLeftBehind<T>(cap: nat, enabled: Sinks, es: seq<Event<T>>, k: nat)
    requires IsRun(Start<T>(cap, enabled), es) && k <= 2
    requires After(Start<T>(cap, enabled), es).flight.Exited? && SinkEnabled(After(Start<T>(cap, enabled), es), k)
    ensures SinkOf(After(Start<T>(cap, enabled), es), k) == Accepts(es)
  {
    hide Start, IsRun, After, SinkOf, SinkEnabled, Step, Possible, Conserved;
    StartInv<T>(cap, enabled);
    RunInv(Start<T>(cap, enabled), es);
    QueueConserves(cap, enabled, es, k);
    var s := After(Start<T>(cap, enabled), es);
    assert Pending(s, k) == [];
    assert SinkOf(s, k) + [] == SinkOf(s, k);
  }

  function Accepting<T>(vs: seq<T>): (es: seq<Event<T>>)
    ensures |es| == |vs|
  {
    seq(|vs|, k requires 0 <= k < |vs| => Accept(vs[k]))
  }

  lemma {:induction false} RoomLeft<T>(s: System<T>, vs: seq<T>)
    requires !s.closed && !s.crashed && |s.queue| <= s.cap
    ensures IsRun(s, Accepting(vs)) <==> |s.queue| + |vs| <= s.cap
    decreases vs
  {
    if vs != [] {
      assert Accepting(vs)[1..] == Accepting(vs[1..]);
      if |s.queue| < s.cap {
        RoomLeft(Step(s, Accept(vs[0])), vs[1..]);
      }
    }
  }

  /** With no drain the queue takes as many values as configured, a thousand if nothing is, and not one
      more. */
  lemma RoomExactly<T>(maxQueue: int, enabled: Sinks, vs: seq<T>)
    ensures IsRun(Start<T>(QueueSize(maxQueue), enabled), Accepting(vs)) <==> |vs| <= if maxQueue > 0 then maxQueue else 1000
  {
    RoomLeft(Start<T>(QueueSize(maxQueue), enabled), vs);
  }

  predicate IsSend<T>(e: Event<T>) {
    e.Accept? || e.Drop? || e.Late?
  }

  /** A producer sends after the close, which may be before these events. */
  predicate SendsLate<T>(closed: bool, es: seq<Event<T>>)
    decreases es
  {
    es != [] && ((closed && IsSend(es[0])) || SendsLate(closed || es[0].Close?, es[1..]))
  }

  lemma {:induction false} LateMeans<T>(closed: bool, es: seq<Event<T>>)
    ensures SendsLate(closed, es)
        <==> exists j | 0 <= j < |es| :: IsSend(es[j]) && (closed || exists i | 0 <= i < j :: es[i].Close?)
    decreases es
  {
    if es != [] {
      var tail := es[1..];
      LateMeans(closed || es[0].Close?, tail);
      if SendsLate(closed || es[0].Close?, tail) {
        var j :| 0 <= j < |tail| && IsSend(tail[j]) && ((closed || es[0].Close?) || exists i | 0 <= i < j :: tail[i].Close?);
        if !closed && !es[0].Close? {
          var i :| 0 <= i < j && tail[i].Close?;
          assert es[i + 1].Close?;
        }
        assert IsSend(es[j + 1]);
      }
      forall j | 0 <= j < |es| && IsSend(es[j]) && (closed || exists i | 0 <= i < j :: es[i].Close?)
        ensures SendsLate(closed, es)
      {
        if j > 0 {
          assert tail[j - 1] == es[j];
          if !closed && !es[0].Close? {
            var i :| 0 <= i < j && es[i].Close?;
            assert tail[i - 1].Close?;
          }
        }
      }
    }
  }

  lemma {:induction false} CrashIsLate<T>(s: System<T>, es: seq<Event<T>>)
    requires IsRun(s, es) && !s.crashed
    ensures After(s, es).crashed <==> SendsLate(s.closed, es)
    decreases es
  {
    if es != [] {
      var s' := Step(s, es[0]);
      if s'.crashed {
        assert es[1..] == [];
      } else {
        CrashIsLate(s', es[1..]);
      }
    }
  }

  /** The program panics in the storage exactly when some producer sends after the queue was closed:
      it is safe when every collector has stopped before the close. */
  lemma CrashExactly<T>(cap: nat, enabled: Sinks, es: seq<Event<T>>)
    requires IsRun(Start<T>(cap, enabled), es)
    ensures After(Start<T>(cap, enabled), es).crashed
        <==> exists j | 0 <= j < |es| :: IsSend(es[j]) && exists i | 0 <= i < j :: es[i].Close?
  {
    hide IsRun, After, SendsLate, IsSend;
    CrashIsLate(Start<T>(cap, enabled), es);
    LateMeans(false, es);
  }

  /** The same by name: each writer that is on got the accepted values, and the others nothing. */
  lemma SinksByName<T>(cap: nat, enabled: Sinks, es: seq<Event<T>>)
    requires IsRun(Start<T>(cap, enabled), es) && After(Start<T>(cap, enabled), es).flight.Exited?
    ensures var s := After(Start<T>(cap, enabled), es);
            && s.json == (if enabled.json then Accepts(es) else [])
            && s.csv == (if enabled.csv then Accepts(es) else [])
            && s.db == (if enabled.db then Accepts(es) else [])
  {
    hide IsRun, After, Step, Possible, Conserved;
    StartInv<T>(cap, enabled);
    RunInv(Start<T>(cap, enabled), es);
    var s := After(Start<T>(cap, enabled), es);
    QueueConserves(cap, enabled, es, 0);
    QueueConserves(cap, enabled, es, 1);
    QueueConserves(cap, enabled, es, 2);
    assert s.json + [] == s.json && s.csv + [] == s.csv && s.db + [] == s.db;
  }

  /** The drain goroutine never waits while there is a value to write out, and after `Close` it can
      always go on until it ends. */
  lemma DrainProgress<T>(s: System<T>) returns (e: Event<T>)
    requires !s.crashed && !s.flight.Exited? && (s.closed || s.queue != [] || s.flight.Holding?)
    ensures Possible(s, e) && (e.Receive? || e.Write? || e.Exit?)
    ensures DrainWork(Step(s, e)) < DrainWork(s)
  {
    if s.flight.Holding? {
      e := Write;
    } else if s.queue != [] {
      e := Receive;
    } else {
      e := Exit;
    }
  }

  /** The steps the drain goroutine still needs once the queue is closed. */
  function DrainWork<T>(s: System<T>): nat {
    if s.flight.Exited? then 0
    else 4 * |s.queue| + 1 + if s.flight.Holding? && s.flight.stage <= 2 then 3 - s.flight.stage else if s.flight.Holding? then 1 else 0
  }
}
