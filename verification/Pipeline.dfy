/** The collector path as a whole: the handlers of many collectors hand the readings they do not
    suppress to the storage queue, and one goroutine drains it into the writers
    (internal/collector/manager.go and internal/collector/storage.go). */
module Pipeline {
  import opened Floats
  import opened Cache
  import opened Keys
  import opened Dedup
  import opened Records
  import Storage

  datatype Pipe = Pipe(handlers: Dedup.System, queue: Storage.System<Stored>)

  datatype Event =
    | Read(c: Caller, p: Point, v: F64, now: Time)  // a handler looks the reading up
    | Offer(c: Caller, ok: bool)                    // it sends it to the queue, which takes or drops it
    | Remember(c: Caller, now: Time)                // it updates the cache
    | Drain(e: Storage.Event<Stored>)               // the queue is received from, written out or closed

  /** The step that the event is for the handlers. */
  function AtHandlers(e: Event): Dedup.Event
    requires !e.Drain?
  {
    match e
    case Read(c, p, v, now) => Look(c, p, v, now)
    case Offer(c, ok) => Store(c, ok)
    case Remember(c, now) => Update(c, now)
  }

  /** The step that an offer is for the queue. */
  function AtQueue(p: Pipe, e: Event): Storage.Event<Stored>
    requires e.Offer? && e.c in p.handlers.busy
  {
    var r := Stored(p.handlers.busy[e.c].p, p.handlers.busy[e.c].v);
    if p.queue.closed then Storage.Late(r) else if e.ok then Storage.Accept(r) else Storage.Drop(r)
  }

  predicate Possible(p: Pipe, e: Event) {
    && !p.queue.crashed
    && (if e.Drain? then !Storage.IsSend(e.e) && Storage.Possible(p.queue, e.e)
        else
          && Dedup.Possible(p.handlers, AtHandlers(e))
          && (e.Offer? ==> Storage.Possible(p.queue, AtQueue(p, e))))
  }

  /** The panic of an offer to the closed queue ends the program in the middle of the handler. */
  function Step(p: Pipe, e: Event): Pipe
    requires Possible(p, e)
  {
    if e.Drain? then p.(queue := Storage.Step(p.queue, e.e))
    else if !e.Offer? then p.(handlers := Dedup.Step(p.handlers, AtHandlers(e)))
    else
      var q := Storage.Step(p.queue, AtQueue(p, e));
      Pipe(if q.crashed then p.handlers else Dedup.Step(p.handlers, AtHandlers(e)), q)
  }

  function Start(ttl: Time, cap: nat, enabled: Storage.Sinks): Pipe {
    Pipe(Dedup.Start(ttl), Storage.Start(cap, enabled))
  }

  predicate IsRun(p: Pipe, es: seq<Event>)
    decreases es
  {
    es == [] || (Possible(p, es[0]) && IsRun(Step(p, es[0]), es[1..]))
  }

  function After(p: Pipe, es: seq<Event>): Pipe
    requires IsRun(p, es)
    decreases es
  {
    if es == [] then p else After(Step(p, es[0]), es[1..])
  }

  // ---------------------------------------------------------------------------
  // The two halves
  // ---------------------------------------------------------------------------

  /** The part of a run that the handlers see. */
  function HandlerEvents(p: Pipe, es: seq<Event>): seq<Dedup.Event>
    requires IsRun(p, es)
    decreases es
  {
    if es == [] then []
    else
      (if es[0].Drain? || (es[0].Offer? && p.queue.closed) then [] else [AtHandlers(es[0])])
      + HandlerEvents(Step(p, es[0]), es[1..])
  }

  /** The part of a run that the queue sees. */
  function QueueEvents(p: Pipe, es: seq<Event>): seq<Storage.Event<Stored>>
    requires IsRun(p, es)
    decreases es
  {
    if es == [] then []
    else
      (if es[0].Drain? then [es[0].e] else if es[0].Offer? then [AtQueue(p, es[0])] else [])
      + QueueEvents(Step(p, es[0]), es[1..])
  }

  lemma StepOfHandlers(p: Pipe, e: Event)
    requires Possible(p, e)
    ensures e.Drain? || (e.Offer? && p.queue.closed) ==> Step(p, e).handlers == p.handlers
    ensures !e.Drain? && !(e.Offer? && p.queue.closed) ==>
              Dedup.Possible(p.handlers, AtHandlers(e)) && Step(p, e).handlers == Dedup.Step(p.handlers, AtHandlers(e))
  {
    hide Dedup.Step, Dedup.Possible;
  }

  lemma StepOfQueue(p: Pipe, e: Event)
    requires Possible(p, e)
    ensures e.Drain? ==> Storage.Possible(p.queue, e.e) && Step(p, e).queue == Storage.Step(p.queue, e.e)
    ensures e.Offer? ==> e.c in p.handlers.busy && Storage.Possible(p.queue, AtQueue(p, e))
                         && Step(p, e).queue == Storage.Step(p.queue, AtQueue(p, e))
    ensures e.Read? || e.Remember? ==> Step(p, e).queue == p.queue
  {
    hide Dedup.Step, Storage.Step;
  }

  /** The handlers' part of a run is one of their interleavings. */
  lemma {:induction false} HandlersRun(p: Pipe, es: seq<Event>)
    requires IsRun(p, es)
    ensures Dedup.IsRun(p.handlers, HandlerEvents(p, es))
    ensures After(p, es).handlers == Dedup.After(p.handlers, HandlerEvents(p, es))
    decreases es
  {
    hide Step, Possible, Dedup.Step, Dedup.Possible, AtHandlers;
    if es == [] {
      NoEvents(p.handlers);
    } else {
      StepOfHandlers(p, es[0]);
      HandlersRun(Step(p, es[0]), es[1..]);
      if !es[0].Drain? && !(es[0].Offer? && p.queue.closed) {
        OneEvent(p.handlers, AtHandlers(es[0]), HandlerEvents(Step(p, es[0]), es[1..]));
      } else {
        assert HandlerEvents(p, es) == HandlerEvents(Step(p, es[0]), es[1..]);
      }
    }
  }

  /** The queue's part of a run is one of its interleavings. */
  lemma {:induction false} QueueRun(p: Pipe, es: seq<Event>)
    requires IsRun(p, es)
    ensures Storage.IsRun(p.queue, QueueEvents(p, es))
    ensures After(p, es).queue == Storage.After(p.queue, QueueEvents(p, es))
    decreases es
  {
    hide Step, Possible, Storage.Step, Storage.Possible, AtQueue;
    if es != [] {
      StepOfQueue(p, es[0]);
      var tail := QueueEvents(Step(p, es[0]), es[1..]);
      QueueRun(Step(p, es[0]), es[1..]);
      if es[0].Drain? {
        assert ([es[0].e] + tail)[1..] == tail;
      } else if es[0].Offer? {
        assert ([AtQueue(p, es[0])] + tail)[1..] == tail;
      } else {
        assert QueueEvents(p, es) == tail;
      }
    }
  }

  lemma StepStores(p: Pipe, e: Event)
    requires Possible(p, e) && p.queue.accepted == p.handlers.stored
    ensures Step(p, e).queue.accepted == Step(p, e).handlers.stored
  {
    hide FloatsEqual, Key;
  }

  /** The queue accepted exactly what the handlers stored. */
  lemma {:induction false} AcceptedIsStored(p: Pipe, es: seq<Event>)
    requires IsRun(p, es) && p.queue.accepted == p.handlers.stored
    ensures After(p, es).queue.accepted == After(p, es).handlers.stored
    decreases es
  {
    hide Step, Possible;
    if es != [] {
      StepStores(p, es[0]);
      AcceptedIsStored(Step(p, es[0]), es[1..]);
    }
  }

  // ---------------------------------------------------------------------------
  // What reaches the sinks
  // ---------------------------------------------------------------------------

  /** An enabled sink and what is on its way there are what the handlers stored, in order. */
  lemma SinkIsStored(ttl: Time, cap: nat, enabled: Storage.Sinks, es: seq<Event>, k: nat)
    requires IsRun(Start(ttl, cap, enabled), es) && k <= 2
    requires Storage.SinkEnabled(After(Start(ttl, cap, enabled), es).queue, k)
    ensures var p := After(Start(ttl, cap, enabled), es);
            && Storage.SinkOf(p.queue, k) + Storage.Pending(p.queue, k) == p.handlers.stored
            && (p.queue.flight.Exited? ==> Storage.SinkOf(p.queue, k) == p.handlers.stored)
  {
    hide IsRun, After, Storage.SinkOf, Storage.SinkEnabled, Storage.IsRun, Storage.After;
    var start := Start(ttl, cap, enabled);
    QueueRun(start, es);
    Storage.StartInv<Stored>(cap, enabled);
    Storage.RunInv(start.queue, QueueEvents(start, es));
    AcceptedIsStored(start, es);
    var p := After(start, es);
    assert Storage.Conserved(p.queue, k);
    if p.queue.flight.Exited? {
      assert Storage.Pending(p.queue, k) == [];
      assert Storage.SinkOf(p.queue, k) + [] == Storage.SinkOf(p.queue, k);
    }
  }

  /** In every run of any callers, also one that ends in a panic, a reading whose handler returned
      without an error has, in every enabled sink or on its way there, a record of its key that is
      the reading itself, or near it and cached at most the ttl before; once the drain goroutine has
      ended the record is in the sink. */
  lemma ReadingsKept(ttl: Time, cap: nat, enabled: Storage.Sinks, es: seq<Event>, d: Done, k: nat)
    requires IsRun(Start(ttl, cap, enabled), es) && k <= 2
    requires d in After(Start(ttl, cap, enabled), es).handlers.done
    requires Storage.SinkEnabled(After(Start(ttl, cap, enabled), es).queue, k)
    ensures var p := After(Start(ttl, cap, enabled), es);
            var sink := Storage.SinkOf(p.queue, k);
            && (exists r | r in sink + Storage.Pending(p.queue, k) ::
                  Key(r.point.names) == Key(d.point.names) && StandsFor(r.v, d, Effective(ttl)))
            && (p.queue.flight.Exited? ==>
                  exists r | r in sink :: Key(r.point.names) == Key(d.point.names) && StandsFor(r.v, d, Effective(ttl)))
  {
    hide IsRun, After, Storage.SinkOf, Storage.SinkEnabled, Storage.Pending, StandsFor, Effective, Key, Dedup.IsRun, Dedup.After, DoneOk;
    var start := Start(ttl, cap, enabled);
    SinkIsStored(ttl, cap, enabled, es, k);
    HandlersRun(start, es);
    NoDrift(ttl, HandlerEvents(start, es), d);
  }

  /** Until it ends or panics the program is never stuck: a caller that is free can read any point, and
      one in the middle of its handler can take its next step. */
  lemma CallersProgress(p: Pipe, c: Caller, point: Point, v: F64) returns (e: Event)
    requires !p.queue.crashed
    ensures Possible(p, e)
    ensures match e
            case Read(c', p', v', now) => c !in p.handlers.busy && c' == c && p' == point && v' == v && now == p.handlers.now
            case Offer(c', _) => c' == c
            case Remember(c', now) => c' == c && now == p.handlers.now
            case Drain(_) => false
  {
    if c !in p.handlers.busy {
      e := Read(c, point, v, p.handlers.now);
    } else if p.handlers.busy[c].Missed? {
      e := Offer(c, false);
    } else {
      e := Remember(c, p.handlers.now);
    }
  }

  /** The callers are the collectors of the fleet, and read the points of their device. */
  predicate ByFleet(fleet: Fleet, es: seq<Event>) {
    forall e | e in es && e.Read? :: Polls(fleet, e.c, e.p)
  }

  lemma {:induction false} HandlersByFleet(fleet: Fleet, p: Pipe, es: seq<Event>)
    requires IsRun(p, es) && ByFleet(fleet, es)
    ensures Records.ByFleet(fleet, HandlerEvents(p, es))
    decreases es
  {
    hide Step, Possible, Polls;
    if es != [] {
      assert es[0] in es && forall e | e in es[1..] :: e in es;
      HandlersByFleet(fleet, Step(p, es[0]), es[1..]);
    }
  }

  /** When no two different points of the fleet share a key, the record is of the reading's own point. */
  lemma OwnReadingsKept(fleet: Fleet, ttl: Time, cap: nat, enabled: Storage.Sinks, es: seq<Event>, d: Done, k: nat)
    requires KeysApart(fleet) && IsRun(Start(ttl, cap, enabled), es) && ByFleet(fleet, es) && k <= 2
    requires d in After(Start(ttl, cap, enabled), es).handlers.done
    requires Storage.SinkEnabled(After(Start(ttl, cap, enabled), es).queue, k)
    ensures var p := After(Start(ttl, cap, enabled), es);
            && OwnRecord(Storage.SinkOf(p.queue, k) + Storage.Pending(p.queue, k), d, Effective(ttl))
            && (p.queue.flight.Exited? ==> OwnRecord(Storage.SinkOf(p.queue, k), d, Effective(ttl)))
  {
    hide IsRun, After, Storage.SinkOf, Storage.SinkEnabled, Storage.Pending, OwnRecord, Effective, Dedup.IsRun, Dedup.After, ByFleet, KeysApart,
      Records.ByFleet;
    var start := Start(ttl, cap, enabled);
    SinkIsStored(ttl, cap, enabled, es, k);
    HandlersRun(start, es);
    HandlersByFleet(fleet, start, es);
    ApartGivesOwn(fleet, ttl, HandlerEvents(start, es));
  }
}
