/** The TTL cache of internal/utils/cache.go.  The clock is a parameter of every call. */
module Cache {
  import opened Floats
  import opened Options

  /** Nanoseconds. */
  type Time = int

  const HOUR: Time := 3_600_000_000_000

  datatype Entry = Entry(v: F64, at: Time)

  /** A ttl that is not positive means one hour. */
  function Effective(ttl: Time): (r: Time)
    ensures r > 0
  {
    if ttl <= 0 then HOUR else ttl
  }

  datatype State = State(ttl: Time, data: map<string, Entry>)

  predicate Expired(s: State, key: string, now: Time)
    requires key in s.data
  {
    now - s.data[key].at > s.ttl
  }

  /** What `GetValue` answers, and the cache it leaves: an expired entry is deleted. */
  function Lookup(s: State, key: string, now: Time): Option<F64> {
    if key in s.data && !Expired(s, key, now) then Some(s.data[key].v) else None
  }

  function Cleaned(s: State, key: string, now: Time): State {
    if key in s.data && Expired(s, key, now) then s.(data := s.data - {key}) else s
  }

  class ValueCache {
    var ttl: Time
    var data: map<string, Entry>

    ghost function View(): State
      reads this
    {
      State(ttl, data)
    }

    constructor (ttl: Time)
      ensures View() == State(Effective(ttl), map[])
    {
      this.ttl := if ttl <= 0 then HOUR else ttl;
      data := map[];
    }

    method GetValue(key: string, now: Time) returns (v: F64, ok: bool)
      modifies this`data
      ensures (if ok then Some(v) else None) == Lookup(old(View()), key, now)
      ensures View() == Cleaned(old(View()), key, now)
    {
      if key !in data {
        return Fin(0.0), false;
      }
      var e := data[key];
      if now - e.at > ttl {
        data := data - {key};
        return Fin(0.0), false;
      }
      return e.v, true;
    }

    method SetValue(key: string, v: F64, now: Time)
      modifies this`data
      ensures View() == old(View()).(data := old(data)[key := Entry(v, now)])
    {
      data := data[key := Entry(v, now)];
    }

    method SetTtl(ttl: Time)
      modifies this`ttl
      ensures View() == old(View()).(ttl := Effective(ttl))
    {
      this.ttl := if ttl <= 0 then HOUR else ttl;
    }
  }

  /** A value is found for as many nanoseconds as the ttl asked for says, an hour of them if it says
      none, and not one longer. */
  lemma HitExactly(ttl: Time, key: string, v: F64, set_: Time, now: Time)
    ensures var s := State(Effective(ttl), map[key := Entry(v, set_)]);
            Lookup(s, key, now) == if now - set_ <= (if ttl <= 0 then 60 * 60 * 1_000_000_000 else ttl) then Some(v) else None
  {
  }

  // ---------------------------------------------------------------------------
  // A log that never forgets
  // ---------------------------------------------------------------------------

  datatype Op = Get(key: string, now: Time) | Set(key: string, v: F64, now: Time) | Ttl(ttl: Time)

  /** The `SetValue` calls so far, oldest first. */
  type Log = seq<(string, Entry)>

  function LastSet(log: Log, key: string): Option<Entry>
    decreases |log|
  {
    if log == [] then None
    else if log[|log| - 1].0 == key then Some(log[|log| - 1].1)
    else LastSet(log[..|log| - 1], key)
  }

  /** The last value set for the key, if it was set within the ttl. */
  function Recent(log: Log, ttl: Time, key: string, now: Time): Option<F64> {
    match LastSet(log, key)
    case None => None
    case Some(e) => if now - e.at <= ttl then Some(e.v) else None
  }

  function StepCache(s: State, op: Op): State {
    match op
    case Get(key, now) => Cleaned(s, key, now)
    case Set(key, v, now) => s.(data := s.data[key := Entry(v, now)])
    case Ttl(ttl) => s.(ttl := Effective(ttl))
  }

  function StepLog(log: Log, op: Op): Log {
    match op
    case Set(key, v, now) => log + [(key, Entry(v, now))]
    case _ => log
  }

  /** The answers of the `Get` calls of a run. */
  function CacheAnswers(s: State, ops: seq<Op>): seq<Option<F64>>
    decreases ops
  {
    if ops == [] then []
    else (if ops[0].Get? then [Lookup(s, ops[0].key, ops[0].now)] else []) + CacheAnswers(StepCache(s, ops[0]), ops[1..])
  }

  function LogAnswers(log: Log, ttl: Time, ops: seq<Op>): seq<Option<F64>>
    decreases ops
  {
    if ops == [] then []
    else
      (if ops[0].Get? then [Recent(log, ttl, ops[0].key, ops[0].now)] else [])
      + LogAnswers(StepLog(log, ops[0]), if ops[0].Ttl? then Effective(ops[0].ttl) else ttl, ops[1..])
  }

  /** The clock does not go back. */
  predicate Ordered(ops: seq<Op>, now: Time)
    decreases ops
  {
    ops == [] || (if ops[0].Ttl? then Ordered(ops[1..], now) else now <= ops[0].now && Ordered(ops[1..], ops[0].now))
  }

  /** No `SetTTL` makes the ttl longer; asking for zero asks for an hour. */
  predicate Shrinking(ops: seq<Op>, ttl: Time)
    decreases ops
  {
    ops == [] || (if ops[0].Ttl? then Effective(ops[0].ttl) <= ttl && Shrinking(ops[1..], Effective(ops[0].ttl)) else Shrinking(ops[1..], ttl))
  }

  /** What is cached is the last value set. */
  ghost predicate Sound(s: State, log: Log) {
    forall key | key in s.data :: LastSet(log, key) == Some(s.data[key])
  }

  /** What is missing has expired. */
  ghost predicate Complete(s: State, log: Log, now: Time) {
    forall key | key !in s.data && LastSet(log, key).Some? :: now - LastSet(log, key).value.at > s.ttl
  }

  lemma LastSetAppend(log: Log, k: string, e: Entry, key: string)
    ensures LastSet(log + [(k, e)], key) == if k == key then Some(e) else LastSet(log, key)
  {
    assert (log + [(k, e)])[..|log|] == log;
  }

  lemma StepSound(s: State, log: Log, op: Op)
    requires Sound(s, log)
    ensures Sound(StepCache(s, op), StepLog(log, op))
  {
    if op.Set? {
      forall key
        ensures LastSet(StepLog(log, op), key) == if op.key == key then Some(Entry(op.v, op.now)) else LastSet(log, key)
      {
        LastSetAppend(log, op.key, Entry(op.v, op.now), key);
      }
    }
  }

  lemma StepComplete(s: State, log: Log, now: Time, op: Op)
    requires Sound(s, log) && Complete(s, log, now)
    requires if op.Ttl? then Effective(op.ttl) <= s.ttl else now <= op.now
    ensures Complete(StepCache(s, op), StepLog(log, op), if op.Ttl? then now else op.now)
  {
    if op.Set? {
      forall key
        ensures LastSet(StepLog(log, op), key) == if op.key == key then Some(Entry(op.v, op.now)) else LastSet(log, key)
      {
        LastSetAppend(log, op.key, Entry(op.v, op.now), key);
      }
    }
  }

  /** With a ttl that is fixed or only shrinks, the cache answers every run of calls as the log
      does, although it deletes entries lazily. */
  lemma {:induction false} CacheRefinesLog(s: State, log: Log, now: Time, ops: seq<Op>)
    requires Sound(s, log) && Complete(s, log, now)
    requires Ordered(ops, now) && Shrinking(ops, s.ttl)
    ensures CacheAnswers(s, ops) == LogAnswers(log, s.ttl, ops)
    decreases ops
  {
    if ops != [] {
      var op := ops[0];
      StepSound(s, log, op);
      StepComplete(s, log, now, op);
      CacheRefinesLog(StepCache(s, op), StepLog(log, op), if op.Ttl? then now else op.now, ops[1..]);
    }
  }

  predicate HitsAgree(a: seq<Option<F64>>, b: seq<Option<F64>>) {
    |a| == |b| && forall i | 0 <= i < |a| && a[i].Some? :: b[i] == a[i]
  }

  /** Whatever the clock and the ttl do, a hit of the cache is a hit of the log. */
  lemma {:induction false} HitsAreRecent(s: State, log: Log, ops: seq<Op>)
    requires Sound(s, log)
    ensures HitsAgree(CacheAnswers(s, ops), LogAnswers(log, s.ttl, ops))
    decreases ops
  {
    if ops != [] {
      StepSound(s, log, ops[0]);
      HitsAreRecent(StepCache(s, ops[0]), StepLog(log, ops[0]), ops[1..]);
    }
  }

  /** The ttls that a run sets, in order. */
  function Schedule(ops: seq<Op>): seq<Time>
    decreases ops
  {
    if ops == [] then [] else (if ops[0].Ttl? then [ops[0].ttl] else []) + Schedule(ops[1..])
  }

  predicate NeverGrows(ttl: Time, schedule: seq<Time>)
    decreases schedule
  {
    schedule == [] || (Effective(schedule[0]) <= ttl && NeverGrows(Effective(schedule[0]), schedule[1..]))
  }

  lemma {:induction false} ShrinkingSchedule(ops: seq<Op>, ttl: Time)
    ensures Shrinking(ops, ttl) <==> NeverGrows(ttl, Schedule(ops))
    decreases ops
  {
    if ops != [] {
      ShrinkingSchedule(ops[1..], if ops[0].Ttl? then Effective(ops[0].ttl) else ttl);
      if ops[0].Ttl? {
        assert Schedule(ops) == [ops[0].ttl] + Schedule(ops[1..]);
        assert Schedule(ops)[1..] == Schedule(ops[1..]);
      } else {
        assert Schedule(ops) == Schedule(ops[1..]);
      }
    }
  }

  function SetTtls(schedule: seq<Time>): (ops: seq<Op>)
    ensures |ops| == |schedule|
  {
    seq(|schedule|, k requires 0 <= k < |schedule| => Ttl(schedule[k]))
  }

  lemma {:induction false} OnlyTtls(schedule: seq<Time>, s: State, log: Log, ttl: Time, now: Time)
    ensures Schedule(SetTtls(schedule)) == schedule && Ordered(SetTtls(schedule), now)
    ensures CacheAnswers(s, SetTtls(schedule)) == [] && LogAnswers(log, ttl, SetTtls(schedule)) == []
    decreases schedule
  {
    if schedule != [] {
      var op := Ttl(schedule[0]);
      assert SetTtls(schedule)[1..] == SetTtls(schedule[1..]);
      OnlyTtls(schedule[1..], StepCache(s, op), log, Effective(schedule[0]), now);
    }
  }

  /** The first call of a run. */
  lemma FirstOp(op: Op, ops: seq<Op>, s: State, log: Log, ttl: Time, now: Time)
    ensures Schedule([op] + ops) == (if op.Ttl? then [op.ttl] else []) + Schedule(ops)
    ensures Ordered([op] + ops, now) <==> if op.Ttl? then Ordered(ops, now) else now <= op.now && Ordered(ops, op.now)
    ensures CacheAnswers(s, [op] + ops) == (if op.Get? then [Lookup(s, op.key, op.now)] else []) + CacheAnswers(StepCache(s, op), ops)
    ensures LogAnswers(log, ttl, [op] + ops)
         == (if op.Get? then [Recent(log, ttl, op.key, op.now)] else [])
            + LogAnswers(StepLog(log, op), if op.Ttl? then Effective(op.ttl) else ttl, ops)
  {
    hide StepCache, StepLog, Lookup, Recent;
    assert ([op] + ops)[1..] == ops;
  }

  /** A value set, looked up just after it expired, and looked up again once the ttl has grown. */
  function LostHit(short: Time, schedule: seq<Time>, key: string, v: F64): seq<Op>
    requires schedule != []
  {
    [Set(key, v, 0)] + ([Get(key, short + 1)] + ([Ttl(schedule[0])] + ([Get(key, short + 1)] + SetTtls(schedule[1..]))))
  }

  /** Whatever the ttl does after it has grown: the second lookup misses where the log still hits. */
  lemma GrowthLosesHits(short: Time, schedule: seq<Time>, key: string, v: F64)
    requires 0 < short && schedule != [] && Effective(schedule[0]) > short
    ensures var ops := LostHit(short, schedule, key, v);
            && Ordered(ops, 0)
            && Schedule(ops) == schedule
            && CacheAnswers(State(short, map[]), ops) == [None, None]
            && LogAnswers([], short, ops) == [None, Some(v)]
  {
    hide Ordered, CacheAnswers, LogAnswers, Schedule, SetTtls;
    var long := Effective(schedule[0]);
    var s0, s1 := State(short, map[]), State(short, map[key := Entry(v, 0)]);
    var log: Log := [(key, Entry(v, 0))];
    assert log[..0] == [] && LastSet(log, key) == Some(Entry(v, 0));
    var last := SetTtls(schedule[1..]);
    var fourth := [Get(key, short + 1)] + last;
    var third := [Ttl(schedule[0])] + fourth;
    var second := [Get(key, short + 1)] + third;
    assert s1.data - {key} == map[];
    OnlyTtls(schedule[1..], State(long, map[]), log, long, short + 1);
    FirstOp(Get(key, short + 1), last, State(long, map[]), log, long, short + 1);
    FirstOp(Ttl(schedule[0]), fourth, s0, log, short, short + 1);
    assert [schedule[0]] + schedule[1..] == schedule;
    FirstOp(Get(key, short + 1), third, s1, log, short, 0);
    FirstOp(Set(key, v, 0), second, s0, [], short, 0);
    assert StepLog([], Set(key, v, 0)) == log;
    assert LogAnswers(log, short, third) == [Some(v)];
    assert LogAnswers(log, short, second) == [None, Some(v)];
    assert LogAnswers([], short, LostHit(short, schedule, key, v)) == LogAnswers(log, short, second);
  }

  /** From an empty cache, every ordered run that sets these ttls is answered as by the log. */
  ghost predicate AlwaysRefines(ttl: Time, schedule: seq<Time>) {
    forall ops | Ordered(ops, 0) && Schedule(ops) == schedule :: CacheAnswers(State(ttl, map[]), ops) == LogAnswers([], ttl, ops)
  }

  lemma {:induction false} GrowthShows(ttl: Time, schedule: seq<Time>) returns (ops: seq<Op>)
    requires 0 < ttl && !NeverGrows(ttl, schedule)
    ensures Ordered(ops, 0) && Schedule(ops) == schedule
    ensures CacheAnswers(State(ttl, map[]), ops) != LogAnswers([], ttl, ops)
    decreases schedule
  {
    var next := Effective(schedule[0]);
    if next > ttl {
      GrowthLosesHits(ttl, schedule, "", Fin(0.0));
      ops := LostHit(ttl, schedule, "", Fin(0.0));
    } else {
      var later := GrowthShows(next, schedule[1..]);
      FirstOp(Ttl(schedule[0]), later, State(ttl, map[]), [], ttl, 0);
      ops := [Ttl(schedule[0])] + later;
      assert CacheAnswers(State(ttl, map[]), ops) == CacheAnswers(State(next, map[]), later);
      assert LogAnswers([], ttl, ops) == LogAnswers([], next, later);
      assert [schedule[0]] + schedule[1..] == schedule;
    }
  }

  /** The cache is its history for a schedule of ttls exactly when none of them is longer than the
      one before. */
  lemma RefinesExactly(ttl: Time, schedule: seq<Time>)
    requires 0 < ttl
    ensures AlwaysRefines(ttl, schedule) <==> NeverGrows(ttl, schedule)
  {
    hide CacheAnswers, LogAnswers, Ordered, Schedule, NeverGrows, Shrinking;
    if NeverGrows(ttl, schedule) {
      forall ops | Ordered(ops, 0) && Schedule(ops) == schedule
        ensures CacheAnswers(State(ttl, map[]), ops) == LogAnswers([], ttl, ops)
      {
        ShrinkingSchedule(ops, ttl);
        CacheRefinesLog(State(ttl, map[]), [], 0, ops);
      }
    } else {
      var ops := GrowthShows(ttl, schedule);
    }
  }
}
