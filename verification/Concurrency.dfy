/** Sessions and the ticking updater sharing one store under Go's `sync.RWMutex`.

    Every lock operation and every access to a single coil or register is a step of its
    own, and any thread may take the next step.  `handleRTUPDU` takes the read lock on
    entry; its write requests drop it, take the write lock, and on the way out (deferred
    calls, last first) drop the write lock and take the read lock again. */
module Concurrency {
  import opened Bytes
  import opened Packing
  import opened Engine
  import opened EngineLaws
  import opened Options

  type Tid = nat

  /** A request to the serial handler, a request to the TCP handler, or one tick. */
  datatype Op = Rtu(pdu: seq<byte>) | Tcp(pdu: seq<byte>) | Tick

  /** The register that the updater increments. */
  const COUNTER: nat := 100

  /** What the serial stream reader can hand over without a panic; anything for the others. */
  predicate Admissible(op: Op) {
    op.Rtu? ==> Framed(op.pdu) && !ShortCoilWrite(op.pdu)
  }

  type SafeOp = op: Op | Admissible(op) witness Tick

  // ---------------------------------------------------------------------------
  // The atomic meaning of an operation
  // ---------------------------------------------------------------------------

  function Cmd(op: SafeOp): (c: Checked)
    requires !op.Tick?
    ensures !c.Abort?
  {
    if op.Rtu? then
      RtuOutcome(DEFAULT, op.pdu);
      DecodeRtu(op.pdu).command
    else DecodeTcp(op.pdu)
  }

  const DEFAULT: Store := Image(seq(SIZE, _ => false), seq(SIZE, _ => false), seq(SIZE, _ => 0), seq(SIZE, _ => 0))

  function Increment(w: word): word {
    (w + 1) % 0x1_0000
  }

  function Effect(op: SafeOp, t: Store): Store {
    if op.Tick? then t.(holding := t.holding[COUNTER := Increment(t.holding[COUNTER])]) else Apply(Cmd(op), t)
  }

  function Answer(op: SafeOp, t: Store): seq<byte> {
    if op.Tick? then [] else Reply(Cmd(op), t)
  }

  /** The atomic meaning is that of the request handlers. */
  lemma AtomicMeaning(op: SafeOp, t: Store)
    ensures op.Rtu? ==> HandleRtu(t, op.pdu) == Served(Replied(Answer(op, t)), Effect(op, t))
    ensures op.Tcp? ==> HandleTcp(t, op.pdu) == Handled(Answer(op, t), Effect(op, t))
  {
    hide Reply, Apply, DecodeRtu, DecodeTcp, Framed, ShortCoilWrite;
    if op.Rtu? {
      RtuOutcome(t, op.pdu);
    }
  }

  // ---------------------------------------------------------------------------
  // Threads
  // ---------------------------------------------------------------------------

  datatype Phase =
    | Idle
    | Deciding(op: SafeOp)                                      // TCP: refused before any lock
    | Entering(op: SafeOp)                                      // calling RLock
    | Reading(op: SafeOp, bits: seq<bool>, words: seq<word>)    // holds the read lock
    | Wanting(op: SafeOp)                                       // calling Lock
    | Announced(op: SafeOp)                                     // next writer, waits for the readers
    | Writing(op: SafeOp, count: nat)                           // holds the write lock
    | Incrementing(value: word)                                 // holds it, counter loaded
    | Written(op: SafeOp, reply: seq<byte>)                     // holds it, all stored
    | Reentering(op: SafeOp, reply: seq<byte>)                  // deferred RLock
    | Leaving(op: SafeOp, reply: seq<byte>)                     // holds the read lock
    | Returning(op: SafeOp, reply: seq<byte>)                   // holds nothing
  {
    predicate HoldsRead() {
      Reading? || Leaving?
    }

    predicate HoldsWrite() {
      Writing? || Incrementing? || Written?
    }

    /** The operation has taken effect. */
    predicate Committed() {
      Written? || Reentering? || Leaving? || Returning?
    }
  }

  /** A finished operation: when it was called, when it returned, and its place in the log. */
  datatype Record = Record(op: SafeOp, reply: seq<byte>, begun: nat, index: nat, ended: nat)

  datatype Thread = Thread(phase: Phase, begun: nat, index: nat, done: seq<Record>)

  /** An operation taking effect, at the time of the step that made it so. */
  datatype Entry = Entry(tid: Tid, op: SafeOp, reply: seq<byte>, at: nat)

  /** `store` is the shared memory.  `log`, `base` and `clock` are bookkeeping: the order in
      which operations took effect, the tables after them, and the number of steps so far. */
  datatype System = System(
    store: Store,
    readers: set<Tid>,
    pending: Option<Tid>,
    writer: Option<Tid>,
    threads: map<Tid, Thread>,
    init: Store,
    base: Store,
    log: seq<Entry>,
    clock: nat)

  function Tids(n: nat): set<Tid> {
    if n == 0 then {} else Tids(n - 1) + {n - 1}
  }

  /** `n` threads, numbered from zero, before their first operation. */
  function Initial(init: Store, n: nat): System {
    System(init, {}, None, None, map t | t in Tids(n) :: Thread(Idle, 0, 0, []), init, init, [], 0)
  }

  // ---------------------------------------------------------------------------
  // Steps
  // ---------------------------------------------------------------------------

  /** `handleRTUPDU` found a write function code after taking the read lock. */
  predicate NeedsWrite(op: SafeOp) {
    op.Rtu? && IsWrite(op.pdu[0])
  }

  function FirstPhase(op: SafeOp): Phase {
    if op.Rtu? then Entering(op)
    else if op.Tick? then Wanting(op)
    else
      match Cmd(op)
      case GetBits(_, _, _) => Entering(op)
      case GetWords(_, _, _) => Entering(op)
      case PutBits(_, _, _) => Wanting(op)
      case PutWords(_, _, _) => Wanting(op)
      case _ => Deciding(op)
  }

  predicate CanBegin(s: System, t: Tid) {
    t in s.threads && s.threads[t].phase.Idle?
  }

  /** A thread starts an operation. */
  function Begin(s: System, t: Tid, op: SafeOp): System
    requires CanBegin(s, t)
  {
    s.(threads := s.threads[t := s.threads[t].(phase := FirstPhase(op), begun := s.clock)], clock := s.clock + 1)
  }

  /** A thread in an operation can take its next step: `RLock` waits for a writer that holds
      or has announced itself, `Lock` for the other writers and then for the readers. */
  predicate Enabled(s: System, t: Tid) {
    && t in s.threads
    && match s.threads[t].phase
       case Idle => false
       case Entering(_) => s.writer.None? && s.pending.None?
       case Reentering(_, _) => s.writer.None? && s.pending.None?
       case Wanting(_) => s.writer.None? && s.pending.None?
       case Announced(_) => s.readers == {}
       case _ => true
  }

  function SetPhase(s: System, t: Tid, p: Phase): (s': System)
    requires t in s.threads
    ensures s'.threads.Keys == s.threads.Keys
  {
    s.(threads := s.threads[t := s.threads[t].(phase := p)], clock := s.clock + 1)
  }

  /** The operation takes effect in this step. */
  function Commit(s: System, t: Tid, op: SafeOp, p: Phase, reply: seq<byte>): (s': System)
    requires t in s.threads
    ensures s'.threads.Keys == s.threads.Keys
  {
    s.(threads := s.threads[t := s.threads[t].(phase := p, index := |s.log|)],
       base := Effect(op, s.base),
       log := s.log + [Entry(t, op, reply, s.clock)],
       clock := s.clock + 1)
  }

  function Finish(s: System, t: Tid, op: SafeOp, reply: seq<byte>): (s': System)
    requires t in s.threads
    ensures s'.threads.Keys == s.threads.Keys
  {
    var th := s.threads[t];
    var record := Record(op, reply, th.begun, th.index, s.clock);
    s.(threads := s.threads[t := th.(phase := Idle, done := th.done + [record])], clock := s.clock + 1)
  }

  function ReadStep(s: System, t: Tid): (s': System)
    requires t in s.threads && s.threads[t].phase.Reading?
    ensures s'.threads.Keys == s.threads.Keys
  {
    var Reading(op, bits, words) := s.threads[t].phase;
    if NeedsWrite(op) || op.Tick? then SetPhase(s, t, Wanting(op)).(readers := s.readers - {t})
    else
      match Cmd(op)
      case GetBits(fn, start, qty) =>
        if |bits| < qty then SetPhase(s, t, Reading(op, bits + [BitTable(s.store, fn)[start + |bits|]], words))
        else if |bits| == qty then Commit(s, t, op, Leaving(op, BitsReply(fn, bits)), BitsReply(fn, bits))
        else s
      case GetWords(fn, start, qty) =>
        if |words| < qty then SetPhase(s, t, Reading(op, bits, words + [WordTable(s.store, fn)[start + |words|]]))
        else if |words| == qty then Commit(s, t, op, Leaving(op, WordsReply(fn, words)), WordsReply(fn, words))
        else s
      case Refuse(reply) => Commit(s, t, op, Leaving(op, reply), reply)
      case _ => s
  }

  function WriteStep(s: System, t: Tid): (s': System)
    requires t in s.threads && s.threads[t].phase.Writing?
    ensures s'.threads.Keys == s.threads.Keys
  {
    var Writing(op, i) := s.threads[t].phase;
    if op.Tick? then SetPhase(s, t, Incrementing(s.store.holding[COUNTER]))
    else
      match Cmd(op)
      case PutBits(start, bits, echo) =>
        if i < |bits| then SetPhase(s, t, Writing(op, i + 1)).(store := s.store.(coils := s.store.coils[start + i := bits[i]]))
        else Commit(s, t, op, Written(op, echo), echo)
      case PutWords(start, words, echo) =>
        if i < |words| then SetPhase(s, t, Writing(op, i + 1)).(store := s.store.(holding := s.store.holding[start + i := words[i]]))
        else Commit(s, t, op, Written(op, echo), echo)
      case Refuse(reply) => Commit(s, t, op, Written(op, reply), reply)
      case _ => s
  }

  function Advance(s: System, t: Tid): (s': System)
    requires Enabled(s, t)
    ensures s'.threads.Keys == s.threads.Keys
  {
    match s.threads[t].phase
    case Idle => s
    case Deciding(op) =>
      if op.Tick? || !Cmd(op).Refuse? then s
      else Commit(s, t, op, Returning(op, Cmd(op).reply), Cmd(op).reply)
    case Entering(op) => SetPhase(s, t, Reading(op, [], [])).(readers := s.readers + {t})
    case Reading(_, _, _) => ReadStep(s, t)
    case Wanting(op) => SetPhase(s, t, Announced(op)).(pending := Some(t))
    case Announced(op) => SetPhase(s, t, Writing(op, 0)).(pending := None, writer := Some(t))
    case Writing(_, _) => WriteStep(s, t)
    case Incrementing(v) =>
      Commit(s, t, Tick, Written(Tick, []), []).(store := s.store.(holding := s.store.holding[COUNTER := Increment(v)]))
    case Written(op, reply) =>
      SetPhase(s, t, if op.Rtu? then Reentering(op, reply) else Returning(op, reply)).(writer := None)
    case Reentering(op, reply) => SetPhase(s, t, Leaving(op, reply)).(readers := s.readers + {t})
    case Leaving(op, reply) => SetPhase(s, t, Returning(op, reply)).(readers := s.readers - {t})
    case Returning(op, reply) => Finish(s, t, op, reply)
  }

  // ---------------------------------------------------------------------------
  // The log
  // ---------------------------------------------------------------------------

  /** The tables after the logged operations, one after the other. */
  function Replay(init: Store, log: seq<Entry>): Store
    decreases |log|
  {
    if log == [] then init else Effect(log[|log| - 1].op, Replay(init, log[..|log| - 1]))
  }

  /** Every logged reply is the one the operation gives on its own at its place in the log. */
  ghost predicate Sequential(init: Store, log: seq<Entry>) {
    forall k | 0 <= k < |log| :: log[k].reply == Answer(log[k].op, Replay(init, log[..k]))
  }

  ghost predicate Timed(log: seq<Entry>, clock: nat) {
    && (forall k | 0 <= k < |log| :: log[k].at < clock)
    && (forall j, k | 0 <= j < k < |log| :: log[j].at < log[k].at)
  }

  /** The places in the log of one thread's operations. */
  function Places(log: seq<Entry>, t: Tid): seq<nat>
    decreases |log|
  {
    if log == [] then []
    else
      var n := |log| - 1;
      Places(log[..n], t) + if log[n].tid == t then [n] else []
  }

  function Indexes(done: seq<Record>): seq<nat> {
    seq(|done|, k requires 0 <= k < |done| => done[k].index)
  }

  /** The log shows this operation of the thread taking effect at that time. */
  predicate Logged(log: seq<Entry>, t: Tid, op: SafeOp, reply: seq<byte>, index: nat) {
    index < |log| && log[index].tid == t && log[index].op == op && log[index].reply == reply
  }

  /** A finished operation took effect between its call and its return. */
  predicate RecordOk(log: seq<Entry>, t: Tid, r: Record, clock: nat) {
    && Logged(log, t, r.op, r.reply, r.index)
    && r.begun < log[r.index].at < r.ended < clock
  }

  // ---------------------------------------------------------------------------
  // The invariant
  // ---------------------------------------------------------------------------

  predicate IsGet(op: SafeOp) {
    !op.Tick? && (Cmd(op).GetBits? || Cmd(op).GetWords?)
  }

  predicate IsPut(op: SafeOp) {
    !op.Tick? && (Cmd(op).PutBits? || Cmd(op).PutWords?)
  }

  predicate IsRefused(op: SafeOp) {
    !op.Tick? && Cmd(op).Refuse?
  }

  /** Only the operations that take this path are on it. */
  predicate OnPath(p: Phase) {
    match p
    case Idle => true
    case Deciding(op) => op.Tcp? && IsRefused(op)
    case Entering(op) => op.Rtu? || IsGet(op)
    case Reading(op, _, _) => op.Rtu? || IsGet(op)
    case Wanting(op) => op.Tick? || NeedsWrite(op) || IsPut(op)
    case Announced(op) => op.Tick? || NeedsWrite(op) || IsPut(op)
    case Writing(op, _) => op.Tick? || NeedsWrite(op) || IsPut(op)
    case _ => true
  }

  /** The cells read so far are those of the tables. */
  predicate ReadSoFar(op: SafeOp, bits: seq<bool>, words: seq<word>, base: Store) {
    if NeedsWrite(op) || op.Tick? then bits == [] && words == []
    else
      match Cmd(op)
      case GetBits(fn, start, qty) => |bits| <= qty && bits == BitTable(base, fn)[start..start + |bits|]
      case GetWords(fn, start, qty) => |words| <= qty && words == WordTable(base, fn)[start..start + |words|]
      case Refuse(_) => true
      case _ => false
  }

  /** The memory is the tables with the first `i` cells of the write stored. */
  predicate WrittenSoFar(op: SafeOp, i: nat, base: Store, store: Store) {
    if op.Tick? then i == 0 && store == base
    else
      match Cmd(op)
      case PutBits(start, bits, _) => i <= |bits| && store == base.(coils := Overwrite(base.coils, start, bits[..i]))
      case PutWords(start, words, _) => i <= |words| && store == base.(holding := Overwrite(base.holding, start, words[..i]))
      case Refuse(_) => i == 0 && store == base
      case _ => false
  }

  /** What the thread has seen and done agrees with the tables. */
  predicate DataOk(p: Phase, base: Store, store: Store) {
    match p
    case Reading(op, bits, words) => ReadSoFar(op, bits, words, base)
    case Writing(op, i) => WrittenSoFar(op, i, base, store)
    case Incrementing(v) => store == base && v == base.holding[COUNTER]
    case Written(_, _) => store == base
    case _ => true
  }

  /** The thread's place among the locks. */
  predicate LocksOk(s: System, t: Tid)
    requires t in s.threads
  {
    var p := s.threads[t].phase;
    && (t in s.readers <==> p.HoldsRead())
    && (s.writer == Some(t) <==> p.HoldsWrite())
    && (s.pending == Some(t) <==> p.Announced?)
  }

  /** The thread's operations in the log are its finished ones and the current one once it
      has taken effect, in the order it performed them. */
  ghost predicate CallsOk(s: System, t: Tid)
    requires t in s.threads
  {
    var th := s.threads[t];
    && (th.phase.Idle? || th.begun < s.clock)
    && (forall k | 0 <= k < |th.done| :: RecordOk(s.log, t, th.done[k], s.clock))
    && Places(s.log, t) == Indexes(th.done) + (if th.phase.Committed() then [th.index] else [])
    && (th.phase.Committed() ==>
          && Logged(s.log, t, th.phase.op, th.phase.reply, th.index)
          && th.begun < s.log[th.index].at)
  }

  ghost predicate ThreadOk(s: System, t: Tid)
    requires t in s.threads
  {
    && OnPath(s.threads[t].phase)
    && LocksOk(s, t)
    && DataOk(s.threads[t].phase, s.base, s.store)
    && CallsOk(s, t)
  }

  ghost predicate GlobalOk(s: System) {
    && s.readers <= s.threads.Keys
    && (s.pending.Some? ==> s.pending.value in s.threads)
    && (s.writer.Some? ==> s.writer.value in s.threads && s.readers == {} && s.pending.None?)
    && (s.writer.None? ==> s.store == s.base)
    && s.base == Replay(s.init, s.log)
    && Sequential(s.init, s.log)
    && Timed(s.log, s.clock)
  }

  ghost predicate Inv(s: System) {
    && GlobalOk(s)
    && forall t | t in s.threads :: ThreadOk(s, t)
  }

  lemma InvStart(init: Store, n: nat)
    ensures Inv(Initial(init, n))
  {
  }

  // ---------------------------------------------------------------------------
  // One step at a time
  // ---------------------------------------------------------------------------

  lemma PathKinds(op: SafeOp)
    ensures op.Rtu? && !NeedsWrite(op) ==> IsGet(op) || IsRefused(op)
    ensures NeedsWrite(op) ==> IsPut(op) || IsRefused(op)
  {
    hide WordOf, Unpack, BytesWords;
  }

  /** A step of `t` that other threads do not notice. */
  ghost predicate Undisturbed(s: System, s': System, t: Tid) {
    && s'.threads.Keys == s.threads.Keys
    && s'.clock > s.clock
    && (s'.log == s.log || (|s'.log| == |s.log| + 1 && s'.log[..|s.log|] == s.log && s'.log[|s.log|].tid == t))
    && (forall u | u in s.threads && u != t ::
          && s'.threads[u] == s.threads[u]
          && (u in s'.readers <==> u in s.readers)
          && (s'.writer == Some(u) <==> s.writer == Some(u))
          && (s'.pending == Some(u) <==> s.pending == Some(u))
          && (s.threads[u].phase.HoldsRead() || s.threads[u].phase.HoldsWrite() ==> s'.base == s.base)
          && (s.threads[u].phase.HoldsWrite() ==> s'.store == s.store))
  }

  lemma PlacesAppend(log: seq<Entry>, e: Entry, t: Tid)
    ensures Places(log + [e], t) == Places(log, t) + if e.tid == t then [|log|] else []
  {
    assert (log + [e])[..|log|] == log;
  }

  lemma OtherThread(s: System, s': System, t: Tid, u: Tid)
    requires Undisturbed(s, s', t) && u in s.threads && u != t && ThreadOk(s, u)
    ensures ThreadOk(s', u)
  {
    hide OnPath, ReadSoFar, WrittenSoFar;
    if s'.log != s.log {
      var e := s'.log[|s.log|];
      assert s'.log == s.log + [e];
      PlacesAppend(s.log, e, u);
    }
    var th := s.threads[u];
    forall k | 0 <= k < |th.done|
      ensures RecordOk(s'.log, u, th.done[k], s'.clock)
    {
      assert RecordOk(s.log, u, th.done[k], s.clock);
      assert s'.log[th.done[k].index] == s.log[th.done[k].index];
    }
    if th.phase.Committed() {
      assert s'.log[th.index] == s.log[th.index];
    }
  }

  lemma StepInv(s: System, s': System, t: Tid)
    requires Inv(s) && t in s.threads
    requires Undisturbed(s, s', t) && GlobalOk(s') && ThreadOk(s', t)
    ensures Inv(s')
  {
    hide ThreadOk, Undisturbed, GlobalOk;
    forall u | u in s'.threads
      ensures ThreadOk(s', u)
    {
      if u != t {
        assert u in s.threads by {
          SameThreads(s, s', t);
        }
        OtherThread(s, s', t, u);
      }
    }
  }

  lemma SameThreads(s: System, s': System, t: Tid)
    requires Undisturbed(s, s', t)
    ensures s'.threads.Keys == s.threads.Keys
  {
  }

  lemma LogGrows(init: Store, log: seq<Entry>, e: Entry)
    requires Sequential(init, log) && Timed(log, e.at)
    requires e.reply == Answer(e.op, Replay(init, log))
    ensures Replay(init, log + [e]) == Effect(e.op, Replay(init, log))
    ensures Sequential(init, log + [e]) && Timed(log + [e], e.at + 1)
  {
    hide Effect, Answer;
    var longer := log + [e];
    assert longer[..|log|] == log;
    forall k | 0 <= k < |longer|
      ensures longer[k].reply == Answer(longer[k].op, Replay(init, longer[..k]))
    {
      if k < |log| {
        assert longer[..k] == log[..k];
      }
    }
  }

  /** A step that neither starts, commits nor ends an operation keeps the thread's calls. */
  lemma CallsKept(s: System, s': System, t: Tid, p: Phase)
    requires t in s.threads && t in s'.threads && CallsOk(s, t)
    requires s'.log == s.log && s'.clock == s.clock + 1 && s'.threads[t] == s.threads[t].(phase := p)
    requires var q := s.threads[t].phase;
             && !q.Idle? && !p.Idle? && (q.Committed() <==> p.Committed())
             && (p.Committed() ==> p.op == q.op && p.reply == q.reply)
    ensures CallsOk(s', t)
  {
    forall k | 0 <= k < |s.threads[t].done|
      ensures RecordOk(s'.log, t, s.threads[t].done[k], s'.clock)
    {
      assert RecordOk(s.log, t, s.threads[t].done[k], s.clock);
    }
  }

  /** The step in which an operation takes effect. */
  lemma CommitKept(s: System, t: Tid, op: SafeOp, p: Phase, reply: seq<byte>)
    requires GlobalOk(s) && t in s.threads && CallsOk(s, t)
    requires !s.threads[t].phase.Idle? && !s.threads[t].phase.Committed()
    requires p.Committed() && p.op == op && p.reply == reply && reply == Answer(op, s.base)
    ensures var s' := Commit(s, t, op, p, reply);
            && CallsOk(s', t)
            && s'.base == Replay(s'.init, s'.log) && Sequential(s'.init, s'.log) && Timed(s'.log, s'.clock)
  {
    hide Effect, Answer, Replay, Sequential;
    var e := Entry(t, op, reply, s.clock);
    var s' := Commit(s, t, op, p, reply);
    LogGrows(s.init, s.log, e);
    PlacesAppend(s.log, e, t);
    forall k | 0 <= k < |s.threads[t].done|
      ensures RecordOk(s'.log, t, s.threads[t].done[k], s'.clock)
    {
      assert RecordOk(s.log, t, s.threads[t].done[k], s.clock);
    }
  }

  lemma BeginInv(s: System, t: Tid, op: SafeOp)
    requires Inv(s) && CanBegin(s, t)
    ensures Inv(Begin(s, t, op))
  {
    hide Replay, Sequential, NeedsWrite, Cmd;
    var s' := Begin(s, t, op);
    assert ThreadOk(s, t);
    forall k | 0 <= k < |s.threads[t].done|
      ensures RecordOk(s'.log, t, s.threads[t].done[k], s'.clock)
    {
      assert RecordOk(s.log, t, s.threads[t].done[k], s.clock);
    }
    assert ThreadOk(s', t);
    StepInv(s, s', t);
  }

  lemma FinishInv(s: System, t: Tid)
    requires Inv(s) && Enabled(s, t) && s.threads[t].phase.Returning?
    ensures Inv(Advance(s, t))
  {
    hide Replay, Sequential, NeedsWrite, Cmd;
    var s' := Advance(s, t);
    var th, th' := s.threads[t], s'.threads[t];
    assert ThreadOk(s, t);
    forall k | 0 <= k < |th'.done|
      ensures RecordOk(s'.log, t, th'.done[k], s'.clock)
    {
      if k < |th.done| {
        assert RecordOk(s.log, t, th.done[k], s.clock);
      }
    }
    assert Indexes(th'.done) == Indexes(th.done) + [th.index];
    assert ThreadOk(s', t);
    StepInv(s, s', t);
  }

  lemma FreshRead(op: SafeOp, base: Store)
    requires op.Rtu? || IsGet(op)
    ensures ReadSoFar(op, [], [], base)
  {
    hide Cmd, BitTable, WordTable;
    PathKinds(op);
  }

  lemma FreshWrite(op: SafeOp, base: Store)
    requires op.Tick? || NeedsWrite(op) || IsPut(op)
    ensures WrittenSoFar(op, 0, base, base)
  {
    hide Cmd;
    PathKinds(op);
  }

  /** Taking and dropping the read lock. */
  lemma ReadLockInv(s: System, t: Tid)
    requires Inv(s) && Enabled(s, t)
    requires s.threads[t].phase.Entering? || s.threads[t].phase.Reentering? || s.threads[t].phase.Leaving?
    ensures Inv(Advance(s, t))
  {
    hide Replay, Sequential, NeedsWrite, Cmd, CallsOk, ReadSoFar, WrittenSoFar;
    var s' := Advance(s, t);
    assert ThreadOk(s, t);
    if s.threads[t].phase.Entering? {
      FreshRead(s.threads[t].phase.op, s.base);
    }
    CallsKept(s, s', t, s'.threads[t].phase);
    assert ThreadOk(s', t);
    StepInv(s, s', t);
  }

  /** Announcing a writer and taking the write lock. */
  lemma WriteLockInv(s: System, t: Tid)
    requires Inv(s) && Enabled(s, t) && (s.threads[t].phase.Wanting? || s.threads[t].phase.Announced?)
    ensures Inv(Advance(s, t))
  {
    hide Replay, Sequential, NeedsWrite, Cmd, CallsOk, ReadSoFar, WrittenSoFar;
    var s' := Advance(s, t);
    assert ThreadOk(s, t);
    if s.threads[t].phase.Announced? {
      FreshWrite(s.threads[t].phase.op, s.base);
    }
    CallsKept(s, s', t, s'.threads[t].phase);
    assert ThreadOk(s', t);
    StepInv(s, s', t);
  }

  /** A refusal that needs no lock. */
  lemma DecidingInv(s: System, t: Tid)
    requires Inv(s) && Enabled(s, t) && s.threads[t].phase.Deciding?
    ensures Inv(Advance(s, t))
  {
    hide Replay, Sequential, NeedsWrite, Cmd, CallsOk, ReadSoFar, WrittenSoFar, DecodeRtu, DecodeTcp;
    var s' := Advance(s, t);
    assert ThreadOk(s, t);
    var op := s.threads[t].phase.op;
    CommitKept(s, t, op, Returning(op, Cmd(op).reply), Cmd(op).reply);
    assert ThreadOk(s', t);
    StepInv(s, s', t);
  }

  /** Reading one more cell keeps what was read a prefix of the tables. */
  lemma NextCell<T>(cells: seq<T>, start: nat, got: seq<T>)
    requires start + |got| < |cells| && got == cells[start..start + |got|]
    ensures got + [cells[start + |got|]] == cells[start..start + |got| + 1]
  {
  }

  /** The thread is about to leave its read lock, to read a cell, or to answer. */
  predicate ReadsCell(p: Phase)
    requires p.Reading?
  {
    && !NeedsWrite(p.op) && !p.op.Tick?
    && match Cmd(p.op)
       case GetBits(_, _, qty) => |p.bits| < qty
       case GetWords(_, _, qty) => |p.words| < qty
       case _ => false
  }

  /** Dropping the read lock because the request writes. */
  lemma DropInv(s: System, t: Tid)
    requires Inv(s) && Enabled(s, t) && s.threads[t].phase.Reading?
    requires NeedsWrite(s.threads[t].phase.op) || s.threads[t].phase.op.Tick?
    ensures Inv(Advance(s, t))
  {
    hide Replay, Sequential, NeedsWrite, Cmd, CallsOk, WrittenSoFar, ReadSoFar;
    var s' := Advance(s, t);
    assert ThreadOk(s, t);
    CallsKept(s, s', t, s'.threads[t].phase);
    assert ThreadOk(s', t);
    StepInv(s, s', t);
  }

  /** Reading one cell under the read lock. */
  lemma ReadCellInv(s: System, t: Tid)
    requires Inv(s) && Enabled(s, t) && s.threads[t].phase.Reading? && ReadsCell(s.threads[t].phase)
    ensures Inv(Advance(s, t))
  {
    hide Replay, Sequential, NeedsWrite, Cmd, CallsOk, WrittenSoFar, BitTable, WordTable;
    var s' := Advance(s, t);
    assert ThreadOk(s, t);
    var Reading(op, bits, words) := s.threads[t].phase;
    assert s.store == s.base;
    if Cmd(op).GetBits? {
      NextCell(BitTable(s.base, Cmd(op).fn), Cmd(op).start, bits);
    } else {
      NextCell(WordTable(s.base, Cmd(op).fn), Cmd(op).start, words);
    }
    CallsKept(s, s', t, s'.threads[t].phase);
    assert ThreadOk(s', t);
    StepInv(s, s', t);
  }

  /** The reply built from the cells read is the one of the tables. */
  lemma ReadReply(op: SafeOp, bits: seq<bool>, words: seq<word>, base: Store)
    requires ReadSoFar(op, bits, words, base) && !op.Tick? && !NeedsWrite(op) && !ReadsCell(Reading(op, bits, words))
    ensures Cmd(op).GetBits? ==> |bits| == Cmd(op).qty && BitsReply(Cmd(op).fn, bits) == Answer(op, base)
    ensures Cmd(op).GetWords? ==> |words| == Cmd(op).qty && WordsReply(Cmd(op).fn, words) == Answer(op, base)
    ensures Cmd(op).Refuse? ==> Cmd(op).reply == Answer(op, base)
    ensures Cmd(op).GetBits? || Cmd(op).GetWords? || Cmd(op).Refuse?
    ensures Effect(op, base) == base
  {
    hide NeedsWrite, Cmd, BitsReply, WordsReply, BitTable, WordTable;
  }

  /** Answering under the read lock. */
  lemma ReadDoneInv(s: System, t: Tid)
    requires Inv(s) && Enabled(s, t) && s.threads[t].phase.Reading?
    requires !s.threads[t].phase.op.Tick? && !NeedsWrite(s.threads[t].phase.op) && !ReadsCell(s.threads[t].phase)
    ensures Inv(Advance(s, t))
  {
    hide Replay, Sequential, NeedsWrite, Cmd, CallsOk, WrittenSoFar, ReadSoFar, BitsReply, WordsReply, Effect, Answer;
    var s' := Advance(s, t);
    assert ThreadOk(s, t);
    var Reading(op, bits, words) := s.threads[t].phase;
    ReadReply(op, bits, words, s.base);
    var reply := s'.threads[t].phase.reply;
    assert s' == Commit(s, t, op, Leaving(op, reply), reply);
    CommitKept(s, t, op, Leaving(op, reply), reply);
    assert ThreadOk(s', t);
    StepInv(s, s', t);
  }

  lemma ReadInv(s: System, t: Tid)
    requires Inv(s) && Enabled(s, t) && s.threads[t].phase.Reading?
    ensures Inv(Advance(s, t))
  {
    hide Inv, Advance, NeedsWrite, ReadsCell;
    if NeedsWrite(s.threads[t].phase.op) || s.threads[t].phase.op.Tick? {
      DropInv(s, t);
    } else if ReadsCell(s.threads[t].phase) {
      ReadCellInv(s, t);
    } else {
      ReadDoneInv(s, t);
    }
  }

  lemma NextStored<T>(cells: seq<T>, start: nat, vs: seq<T>, i: nat)
    requires start + |vs| <= |cells| && i < |vs|
    ensures Overwrite(cells, start, vs[..i])[start + i := vs[i]] == Overwrite(cells, start, vs[..i + 1])
  {
  }

  /** The thread is about to store a cell. */
  predicate StoresCell(p: Phase)
    requires p.Writing?
  {
    && !p.op.Tick?
    && match Cmd(p.op)
       case PutBits(_, bits, _) => p.count < |bits|
       case PutWords(_, words, _) => p.count < |words|
       case _ => false
  }

  /** Storing one cell under the write lock. */
  lemma StoreCellInv(s: System, t: Tid)
    requires Inv(s) && Enabled(s, t) && s.threads[t].phase.Writing? && StoresCell(s.threads[t].phase)
    ensures Inv(Advance(s, t))
  {
    hide Replay, Sequential, NeedsWrite, Cmd, CallsOk, ReadSoFar, Overwrite;
    var s' := Advance(s, t);
    assert ThreadOk(s, t);
    var Writing(op, i) := s.threads[t].phase;
    if Cmd(op).PutBits? {
      NextStored(s.base.coils, Cmd(op).start, Cmd(op).bits, i);
    } else {
      NextStored(s.base.holding, Cmd(op).start, Cmd(op).words, i);
    }
    CallsKept(s, s', t, s'.threads[t].phase);
    assert ThreadOk(s', t);
    StepInv(s, s', t);
  }

  /** Once every cell is stored the memory is the tables after the write. */
  lemma WriteReply(op: SafeOp, i: nat, base: Store, store: Store)
    requires WrittenSoFar(op, i, base, store) && !op.Tick? && !StoresCell(Writing(op, i))
    ensures Effect(op, base) == store
    ensures Cmd(op).PutBits? || Cmd(op).PutWords? ==> Cmd(op).echo == Answer(op, base)
    ensures Cmd(op).Refuse? ==> Cmd(op).reply == Answer(op, base)
    ensures Cmd(op).PutBits? || Cmd(op).PutWords? || Cmd(op).Refuse?
  {
    hide Cmd, Overwrite;
    if Cmd(op).PutBits? {
      assert Cmd(op).bits[..i] == Cmd(op).bits;
    } else if Cmd(op).PutWords? {
      assert Cmd(op).words[..i] == Cmd(op).words;
    }
  }

  /** Answering under the write lock. */
  lemma WriteDoneInv(s: System, t: Tid)
    requires Inv(s) && Enabled(s, t) && s.threads[t].phase.Writing?
    requires !s.threads[t].phase.op.Tick? && !StoresCell(s.threads[t].phase)
    ensures Inv(Advance(s, t))
  {
    hide Replay, Sequential, NeedsWrite, Cmd, CallsOk, ReadSoFar, WrittenSoFar, Effect, Answer;
    var s' := Advance(s, t);
    assert ThreadOk(s, t);
    var Writing(op, i) := s.threads[t].phase;
    WriteReply(op, i, s.base, s.store);
    var reply := s'.threads[t].phase.reply;
    assert s' == Commit(s, t, op, Written(op, reply), reply);
    CommitKept(s, t, op, Written(op, reply), reply);
    assert ThreadOk(s', t);
    StepInv(s, s', t);
  }

  /** Loading the counter. */
  lemma LoadInv(s: System, t: Tid)
    requires Inv(s) && Enabled(s, t) && s.threads[t].phase.Writing? && s.threads[t].phase.op.Tick?
    ensures Inv(Advance(s, t))
  {
    hide Replay, Sequential, NeedsWrite, Cmd, CallsOk, ReadSoFar;
    var s' := Advance(s, t);
    assert ThreadOk(s, t);
    CallsKept(s, s', t, s'.threads[t].phase);
    assert ThreadOk(s', t);
    StepInv(s, s', t);
  }

  lemma WriteInv(s: System, t: Tid)
    requires Inv(s) && Enabled(s, t) && s.threads[t].phase.Writing?
    ensures Inv(Advance(s, t))
  {
    hide Inv, Advance, StoresCell;
    if s.threads[t].phase.op.Tick? {
      LoadInv(s, t);
    } else if StoresCell(s.threads[t].phase) {
      StoreCellInv(s, t);
    } else {
      WriteDoneInv(s, t);
    }
  }

  /** The second half of a tick, and the release of the write lock. */
  lemma TickInv(s: System, t: Tid)
    requires Inv(s) && Enabled(s, t) && s.threads[t].phase.Incrementing?
    ensures Inv(Advance(s, t))
  {
    hide Replay, Sequential, NeedsWrite, Cmd, CallsOk, ReadSoFar, WrittenSoFar;
    var s' := Advance(s, t);
    assert ThreadOk(s, t);
    CommitKept(s, t, Tick, Written(Tick, []), []);
    var c := Commit(s, t, Tick, Written(Tick, []), []);
    assert s' == c.(store := s'.store) && CallsOk(c, t);
    assert CallsOk(s', t) by {
      SameCalls(c, s', t);
    }
    assert ThreadOk(s', t);
    StepInv(s, s', t);
  }

  lemma SameCalls(s: System, s': System, t: Tid)
    requires t in s.threads && CallsOk(s, t)
    requires s'.threads == s.threads && s'.log == s.log && s'.clock == s.clock
    ensures CallsOk(s', t)
  {
  }

  lemma UnlockInv(s: System, t: Tid)
    requires Inv(s) && Enabled(s, t) && s.threads[t].phase.Written?
    ensures Inv(Advance(s, t))
  {
    hide Replay, Sequential, NeedsWrite, Cmd, CallsOk, ReadSoFar, WrittenSoFar;
    var s' := Advance(s, t);
    assert ThreadOk(s, t);
    CallsKept(s, s', t, s'.threads[t].phase);
    assert ThreadOk(s', t);
    StepInv(s, s', t);
  }

  lemma AdvanceInv(s: System, t: Tid)
    requires Inv(s) && Enabled(s, t)
    ensures Inv(Advance(s, t))
  {
    hide Inv, Advance;
    match s.threads[t].phase {
      case Deciding(_) => DecidingInv(s, t);
      case Reading(_, _, _) => ReadInv(s, t);
      case Writing(_, _) => WriteInv(s, t);
      case Incrementing(_) => TickInv(s, t);
      case Written(_, _) => UnlockInv(s, t);
      case Returning(_, _) => FinishInv(s, t);
      case Wanting(_) => WriteLockInv(s, t);
      case Announced(_) => WriteLockInv(s, t);
      case _ => ReadLockInv(s, t);
    }
  }

  // ---------------------------------------------------------------------------
  // Runs
  // ---------------------------------------------------------------------------

  datatype Move = Call(t: Tid, op: SafeOp) | Continue(t: Tid)

  predicate Allowed(s: System, m: Move) {
    match m
    case Call(t, _) => CanBegin(s, t)
    case Continue(t) => Enabled(s, t)
  }

  function Do(s: System, m: Move): System
    requires Allowed(s, m)
  {
    match m
    case Call(t, op) => Begin(s, t, op)
    case Continue(t) => Advance(s, t)
  }

  /** Any interleaving of calls and steps that the locks permit. */
  predicate IsRun(s: System, moves: seq<Move>)
    decreases moves
  {
    moves == [] || (Allowed(s, moves[0]) && IsRun(Do(s, moves[0]), moves[1..]))
  }

  function After(s: System, moves: seq<Move>): System
    requires IsRun(s, moves)
    decreases moves
  {
    if moves == [] then s else After(Do(s, moves[0]), moves[1..])
  }

  lemma DoInv(s: System, m: Move)
    requires Inv(s) && Allowed(s, m)
    ensures Inv(Do(s, m)) && Do(s, m).init == s.init && Do(s, m).threads.Keys == s.threads.Keys
  {
    hide Inv, Enabled, Effect;
    match m {
      case Call(t, op) => BeginInv(s, t, op);
      case Continue(t) =>
        AdvanceInv(s, t);
        SameSystem(s, t);
    }
  }

  lemma SameSystem(s: System, t: Tid)
    requires Enabled(s, t)
    ensures var s' := Advance(s, t);
            && s'.init == s.init && s'.threads.Keys == s.threads.Keys
            && s'.threads == s.threads[t := s'.threads[t]]
  {
    hide Cmd, NeedsWrite, Effect, BitTable, WordTable, BitsReply, WordsReply;
    if s.threads[t].phase.Reading? {
      SameSystemRead(s, t);
    } else if s.threads[t].phase.Writing? {
      SameSystemWrite(s, t);
    }
  }

  lemma SameSystemRead(s: System, t: Tid)
    requires t in s.threads && s.threads[t].phase.Reading?
    ensures var s' := ReadStep(s, t);
            && s'.init == s.init && t in s'.threads && s'.threads == s.threads[t := s'.threads[t]]
  {
    hide Cmd, NeedsWrite, Effect, BitTable, WordTable, BitsReply, WordsReply;
  }

  lemma SameSystemWrite(s: System, t: Tid)
    requires t in s.threads && s.threads[t].phase.Writing?
    ensures var s' := WriteStep(s, t);
            && s'.init == s.init && t in s'.threads && s'.threads == s.threads[t := s'.threads[t]]
  {
    hide Cmd, NeedsWrite, Effect;
  }

  lemma {:induction false} RunInv(s: System, moves: seq<Move>)
    requires Inv(s) && IsRun(s, moves)
    ensures Inv(After(s, moves)) && After(s, moves).init == s.init && After(s, moves).threads.Keys == s.threads.Keys
    decreases moves
  {
    hide Inv, Do, Allowed;
    if moves != [] {
      DoInv(s, moves[0]);
      RunInv(Do(s, moves[0]), moves[1..]);
    }
  }

  // ---------------------------------------------------------------------------
  // Who called what
  // ---------------------------------------------------------------------------

  /** The operations that a run calls on one thread, in order. */
  function Calls(moves: seq<Move>, t: Tid): seq<SafeOp>
    decreases moves
  {
    if moves == [] then [] else (if moves[0].Call? && moves[0].t == t then [moves[0].op] else []) + Calls(moves[1..], t)
  }

  function Ops(done: seq<Record>): seq<SafeOp> {
    seq(|done|, k requires 0 <= k < |done| => done[k].op)
  }

  function Current(p: Phase): seq<SafeOp> {
    if p.Idle? then [] else if p.Incrementing? then [Tick] else [p.op]
  }

  /** The operations of a thread: the finished ones and the current one. */
  function Performed(th: Thread): seq<SafeOp> {
    Ops(th.done) + Current(th.phase)
  }

  /** Every logged operation is some thread's. */
  ghost predicate Owned(s: System) {
    forall k | 0 <= k < |s.log| :: s.log[k].tid in s.threads
  }

  lemma BeginPerforms(s: System, t: Tid, op: SafeOp)
    requires CanBegin(s, t)
    ensures Performed(Begin(s, t, op).threads[t]) == Performed(s.threads[t]) + [op]
  {
    hide Cmd;
    assert Current(FirstPhase(op)) == [op];
  }

  /** A step of a thread neither starts an operation nor forgets one, and logs only its own. */
  ghost predicate SameCalled(s: System, s': System, t: Tid)
    requires t in s.threads
  {
    && t in s'.threads
    && Performed(s'.threads[t]) == Performed(s.threads[t])
    && (s'.log == s.log || (|s'.log| == |s.log| + 1 && s'.log[..|s.log|] == s.log && s'.log[|s.log|].tid == t))
  }

  lemma ReadPerforms(s: System, t: Tid)
    requires t in s.threads && s.threads[t].phase.Reading?
    ensures SameCalled(s, ReadStep(s, t), t)
  {
    hide Cmd, NeedsWrite, Effect, BitTable, WordTable, BitsReply, WordsReply;
  }

  lemma WritePerforms(s: System, t: Tid)
    requires t in s.threads && s.threads[t].phase.Writing?
    ensures SameCalled(s, WriteStep(s, t), t)
  {
    hide Cmd, NeedsWrite, Effect;
  }

  lemma FinishPerforms(s: System, t: Tid)
    requires Enabled(s, t) && s.threads[t].phase.Returning?
    ensures SameCalled(s, Advance(s, t), t)
  {
    hide Cmd, NeedsWrite, Effect, ReadStep, WriteStep;
    var th, th' := s.threads[t], Advance(s, t).threads[t];
    assert Ops(th'.done) == Ops(th.done) + [th.phase.op];
  }

  lemma AdvancePerforms(s: System, t: Tid)
    requires Enabled(s, t)
    ensures SameCalled(s, Advance(s, t), t)
  {
    hide Cmd, NeedsWrite, Effect, ReadStep, WriteStep;
    AdvanceCases(s, t);
    if s.threads[t].phase.Reading? {
      ReadPerforms(s, t);
    } else if s.threads[t].phase.Writing? {
      WritePerforms(s, t);
    } else if s.threads[t].phase.Returning? {
      FinishPerforms(s, t);
    }
  }

  lemma MovePerforms(s: System, m: Move, t: Tid)
    requires Allowed(s, m) && t in s.threads
    ensures t in Do(s, m).threads
    ensures Performed(Do(s, m).threads[t]) == Performed(s.threads[t]) + if m.Call? && m.t == t then [m.op] else []
  {
    hide Performed, Advance, FirstPhase, Enabled;
    match m {
      case Call(u, op) => BeginPerforms(s, u, op);
      case Continue(u) =>
        SameSystem(s, u);
        EnabledThread(s, u);
        AdvancePerforms(s, u);
    }
  }

  lemma MoveOwned(s: System, m: Move)
    requires Allowed(s, m) && Owned(s)
    ensures Owned(Do(s, m))
  {
    hide Performed, Advance, FirstPhase, Enabled;
    if m.Continue? {
      SameSystem(s, m.t);
      EnabledThread(s, m.t);
      AdvancePerforms(s, m.t);
    }
  }

  lemma {:induction false} RunPerforms(s: System, moves: seq<Move>, t: Tid)
    requires IsRun(s, moves) && t in s.threads
    ensures t in After(s, moves).threads
    ensures Performed(After(s, moves).threads[t]) == Performed(s.threads[t]) + Calls(moves, t)
    decreases moves
  {
    hide Performed, Do, Allowed;
    if moves != [] {
      MovePerforms(s, moves[0], t);
      RunPerforms(Do(s, moves[0]), moves[1..], t);
    }
  }

  lemma {:induction false} RunOwned(s: System, moves: seq<Move>)
    requires IsRun(s, moves) && Owned(s)
    ensures Owned(After(s, moves))
    decreases moves
  {
    hide Owned, Do, Allowed;
    if moves != [] {
      MoveOwned(s, moves[0]);
      RunOwned(Do(s, moves[0]), moves[1..]);
    }
  }

  // ---------------------------------------------------------------------------
  // Linearizability
  // ---------------------------------------------------------------------------

  /** One logged operation, seen as a whole request at its place in the log. */
  ghost predicate Atomic(init: Store, log: seq<Entry>, k: nat)
    requires k < |log|
  {
    var before, after := Replay(init, log[..k]), Replay(init, log[..k + 1]);
    match log[k].op
    case Rtu(pdu) => HandleRtu(before, pdu) == Served(Replied(log[k].reply), after)
    case Tcp(pdu) => HandleTcp(before, pdu) == Handled(log[k].reply, after)
    case Tick => after == before.(holding := before.holding[COUNTER := Increment(before.holding[COUNTER])])
  }

  lemma SequentialAtomic(init: Store, log: seq<Entry>, k: nat)
    requires Sequential(init, log) && k < |log|
    ensures Atomic(init, log, k)
  {
    hide Cmd, Reply, Apply, HandleRtu, HandleTcp;
    var longer := log[..k + 1];
    assert longer[..k] == log[..k] && longer[k] == log[k];
    AtomicMeaning(log[k].op, Replay(init, log[..k]));
  }

  /** Every interleaving is explained by its log: run one whole request at a time in log order,
      the requests give the same replies and, whenever no thread holds the write lock, the same
      memory; the log holds the operations of the threads and nothing else, each finished one
      between its call and its return; and a thread's operations are those the run called on it. */
  lemma Linearizable(init: Store, n: nat, moves: seq<Move>)
    requires IsRun(Initial(init, n), moves)
    ensures var s := After(Initial(init, n), moves);
            && (forall k | 0 <= k < |s.log| :: Atomic(init, s.log, k))
            && (s.writer.None? ==> s.store == Replay(init, s.log))
            && (forall k | 0 <= k < |s.log| :: s.log[k].tid in s.threads)
            && (forall t | t in s.threads :: CallsOk(s, t) && Performed(s.threads[t]) == Calls(moves, t))
  {
    hide Inv, Initial, IsRun, After, Atomic, Replay, CallsOk, Performed, Calls;
    InvStart(init, n);
    RunInv(Initial(init, n), moves);
    var s := After(Initial(init, n), moves);
    InvParts(s);
    StartParts(init, n);
    forall k | 0 <= k < |s.log|
      ensures Atomic(init, s.log, k)
    {
      SequentialAtomic(init, s.log, k);
    }
    forall t | t in s.threads
      ensures Performed(s.threads[t]) == Calls(moves, t)
    {
      StartPerforms(init, n, t);
      RunPerforms(Initial(init, n), moves, t);
    }
    StartPerforms(init, n, 0);
    RunOwned(Initial(init, n), moves);
  }

  lemma StartPerforms(init: Store, n: nat, t: Tid)
    ensures Owned(Initial(init, n))
    ensures t in Initial(init, n).threads ==> Performed(Initial(init, n).threads[t]) == []
  {
  }

  lemma StartParts(init: Store, n: nat)
    ensures Initial(init, n).init == init && Initial(init, n).threads.Keys == Tids(n)
  {
  }

  lemma InvParts(s: System)
    requires Inv(s)
    ensures s.writer.None? ==> s.store == Replay(s.init, s.log)
    ensures Sequential(s.init, s.log) && Timed(s.log, s.clock)
    ensures forall t | t in s.threads :: CallsOk(s, t) && LocksOk(s, t)
    ensures s.writer.Some? ==> s.writer.value in s.threads && s.readers == {} && s.pending.None?
    ensures s.readers <= s.threads.Keys && (s.pending.Some? ==> s.pending.value in s.threads)
  {
    hide Replay, Sequential, Timed, CallsOk, LocksOk, DataOk, OnPath;
    forall t | t in s.threads
      ensures CallsOk(s, t) && LocksOk(s, t)
    {
      assert ThreadOk(s, t);
    }
  }

  /** The log respects real time: a request that returned before another was called took
      effect before it. */
  lemma RealTime(s: System, t: Tid, j: nat, u: Tid, k: nat)
    requires Inv(s) && t in s.threads && u in s.threads
    requires j < |s.threads[t].done| && k < |s.threads[u].done|
    requires s.threads[t].done[j].ended < s.threads[u].done[k].begun
    ensures s.threads[t].done[j].index < s.threads[u].done[k].index
  {
    hide Inv, Replay, Sequential, LocksOk;
    InvParts(s);
    assert CallsOk(s, t) && CallsOk(s, u);
    assert RecordOk(s.log, t, s.threads[t].done[j], s.clock);
    assert RecordOk(s.log, u, s.threads[u].done[k], s.clock);
  }

  /** An operation takes effect in a step of its own thread, while that thread holds the read
      lock or the write lock; only refusals of the TCP handler need no lock. */
  lemma EffectUnderLock(s: System, t: Tid)
    requires Inv(s) && Enabled(s, t) && Advance(s, t).log != s.log
    ensures var s' := Advance(s, t);
            && |s'.log| == |s.log| + 1 && s'.log[|s.log|].tid == t
            && (|| (t in s.readers && t in s'.readers)
                || (s.writer == Some(t) && s'.writer == Some(t))
                || s.threads[t].phase.Deciding?)
  {
    hide Inv, Replay, Sequential, Timed, CallsOk, Cmd, NeedsWrite, Effect, Answer;
    InvParts(s);
    assert LocksOk(s, t);
  }

  // ---------------------------------------------------------------------------
  // The size of a step
  // ---------------------------------------------------------------------------

  predicate SameBut(t: Store, t': Store, a: nat) {
    forall c | 0 <= c < SIZE && c != a :: t'.coils[c] == t.coils[c] && t'.holding[c] == t.holding[c]
  }

  /** At most one coil or one holding register differs, and no input. */
  ghost predicate OneCellApart(t: Store, t': Store) {
    && t'.discretes == t.discretes
    && t'.inputs == t.inputs
    && (t'.coils == t.coils || t'.holding == t.holding)
    && (exists a :: SameBut(t, t', a))
  }

  lemma ReadStepReads(s: System, t: Tid)
    requires t in s.threads && s.threads[t].phase.Reading?
    ensures var q := ReadStep(s, t).threads[t].phase;
            ReadStep(s, t).store == s.store
            && (q.Reading? ==> |q.bits| + |q.words| <= |s.threads[t].phase.bits| + |s.threads[t].phase.words| + 1)
  {
    hide Cmd, NeedsWrite, Effect, BitTable, WordTable, BitsReply, WordsReply;
  }

  lemma WriteStepWrites(s: System, t: Tid)
    requires t in s.threads && s.threads[t].phase.Writing?
    ensures OneCellApart(s.store, WriteStep(s, t).store)
  {
    hide Cmd, NeedsWrite, Effect;
    var Writing(op, i) := s.threads[t].phase;
    var a := if !op.Tick? && Cmd(op).PutBits? then Cmd(op).start + i
             else if !op.Tick? && Cmd(op).PutWords? then Cmd(op).start + i else 0;
    assert SameBut(s.store, WriteStep(s, t).store, a);
  }

  lemma OtherStepWrites(s: System, t: Tid)
    requires Enabled(s, t) && !s.threads[t].phase.Reading? && !s.threads[t].phase.Writing?
    ensures OneCellApart(s.store, Advance(s, t).store)
    ensures Advance(s, t).store != s.store ==> s.threads[t].phase.Incrementing?
  {
    hide Cmd, Effect, ReadStep, WriteStep;
    assert SameBut(s.store, Advance(s, t).store, COUNTER);
  }

  lemma NothingApart(t: Store)
    ensures OneCellApart(t, t)
  {
    assert SameBut(t, t, 0);
  }

  /** No step of the system touches more than one cell: it writes at most one, only while it holds the
      write lock, and reads at most one more. */
  lemma StepsAreSmall(s: System, t: Tid)
    requires Inv(s) && Enabled(s, t)
    ensures var s', p := Advance(s, t), s.threads[t].phase;
            && OneCellApart(s.store, s'.store)
            && (s'.store != s.store ==> s.writer == Some(t))
            && (p.Reading? && s'.threads[t].phase.Reading? ==>
                  |s'.threads[t].phase.bits| + |s'.threads[t].phase.words| <= |p.bits| + |p.words| + 1)
  {
    hide Inv, Cmd, Effect, ReadStep, WriteStep, Advance, CallsOk, Replay, Sequential, Timed, OneCellApart;
    InvParts(s);
    assert LocksOk(s, t);
    AdvanceCases(s, t);
    if s.threads[t].phase.Reading? {
      ReadStepReads(s, t);
      NothingApart(s.store);
    } else if s.threads[t].phase.Writing? {
      WriteStepWrites(s, t);
    } else {
      OtherStepWrites(s, t);
    }
  }

  // ---------------------------------------------------------------------------
  // Locks and progress
  // ---------------------------------------------------------------------------

  /** Never a writer together with a reader or another writer, and no thread waits for the
      write lock while it holds the read lock. */
  lemma Exclusion(s: System, t: Tid, u: Tid)
    requires Inv(s) && t in s.threads && u in s.threads
    ensures s.threads[t].phase.HoldsWrite() && u != t ==> !s.threads[u].phase.HoldsWrite() && !s.threads[u].phase.HoldsRead()
    ensures s.threads[t].phase.Wanting? || s.threads[t].phase.Announced? ==> t !in s.readers && s.writer != Some(t)
  {
    hide Inv, Replay, Sequential, Timed, CallsOk;
    InvParts(s);
    assert LocksOk(s, t) && LocksOk(s, u);
  }

  lemma MoveThen(s: System, m: Move, moves: seq<Move>)
    requires Allowed(s, m) && IsRun(Do(s, m), moves)
    ensures IsRun(s, [m] + moves) && After(s, [m] + moves) == After(Do(s, m), moves)
  {
    hide Do, Allowed;
    assert ([m] + moves)[1..] == moves;
  }

  lemma NoMoves(s: System)
    ensures IsRun(s, []) && After(s, []) == s
  {
  }

  /** Readers do not exclude each other: any two serial requests can hold the read lock at once. */
  lemma ReadersOverlap(init: Store, a: SafeOp, b: SafeOp)
    requires a.Rtu? && b.Rtu?
    ensures var moves := [Call(0, a)] + ([Call(1, b)] + ([Continue(0)] + ([Continue(1)] + [])));
            IsRun(Initial(init, 2), moves) && After(Initial(init, 2), moves).readers == {0, 1}
  {
    hide Cmd, IsRun, After;
    var s0 := Initial(init, 2);
    TidsAre(2, 0);
    TidsAre(2, 1);
    var s1 := Do(s0, Call(0, a));
    var s2 := Do(s1, Call(1, b));
    assert Enabled(s2, 0);
    var s3 := Do(s2, Continue(0));
    assert Enabled(s3, 1);
    var s4 := Do(s3, Continue(1));
    NoMoves(s4);
    MoveThen(s3, Continue(1), []);
    MoveThen(s2, Continue(0), [Continue(1)] + []);
    MoveThen(s1, Call(1, b), [Continue(0)] + ([Continue(1)] + []));
    MoveThen(s0, Call(0, a), [Call(1, b)] + ([Continue(0)] + ([Continue(1)] + [])));
  }

  /** A writer that has announced itself lets no new reader in, and one that holds the lock neither. */
  lemma WritersComeFirst(s: System, t: Tid)
    requires Enabled(s, t) && (s.pending.Some? || s.writer.Some?)
    ensures Advance(s, t).readers <= s.readers
  {
    hide Cmd, Effect, NeedsWrite, BitTable, WordTable, BitsReply, WordsReply;
  }

  /** The serial handler returns by releasing the read lock it took on entry, also after it gave it up
      for the write lock in between; a reply of it is never sent from any other place. */
  lemma SerialReturns(s: System, t: Tid)
    requires Inv(s) && Enabled(s, t)
    requires var p := Advance(s, t).threads[t].phase; p.Returning? && p.op.Rtu?
    ensures t in s.readers && t !in Advance(s, t).readers && s.threads[t].phase.Leaving?
  {
    hide Inv, Cmd, Effect, ReadStep, WriteStep, CallsOk, Replay, Sequential, Timed;
    InvParts(s);
    assert LocksOk(s, t);
    AdvanceCases(s, t);
    if s.threads[t].phase.Reading? {
      ReadNeverReturns(s, t);
    } else if s.threads[t].phase.Writing? {
      WriteNeverReturns(s, t);
    } else if s.threads[t].phase.Deciding? {
      DecidingOnPath(s, t);
    }
  }

  lemma ReadNeverReturns(s: System, t: Tid)
    requires t in s.threads && s.threads[t].phase.Reading?
    ensures !ReadStep(s, t).threads[t].phase.Returning?
  {
    hide Cmd, NeedsWrite, Effect, BitTable, WordTable, BitsReply, WordsReply;
  }

  lemma WriteNeverReturns(s: System, t: Tid)
    requires t in s.threads && s.threads[t].phase.Writing?
    ensures !WriteStep(s, t).threads[t].phase.Returning?
  {
    hide Cmd, NeedsWrite, Effect;
  }

  /** While an operation is unfinished, some thread can take a step. */
  lemma Progress(s: System, t: Tid) returns (u: Tid)
    requires Inv(s) && t in s.threads && !s.threads[t].phase.Idle?
    ensures Enabled(s, u)
  {
    hide Inv, Replay, Sequential, Timed, CallsOk;
    InvParts(s);
    assert LocksOk(s, t);
    if s.writer.Some? {
      u := s.writer.value;
      assert LocksOk(s, u);
    } else if s.readers != {} {
      u :| u in s.readers;
      assert LocksOk(s, u);
    } else if s.pending.Some? {
      u := s.pending.value;
      assert LocksOk(s, u);
    } else {
      u := t;
    }
  }

  function CellsLeft(p: Phase): nat {
    match p
    case Reading(op, bits, words) =>
      if op.Tick? then 0
      else (
        match Cmd(op)
        case GetBits(_, _, qty) => if |bits| <= qty then qty - |bits| else 0
        case GetWords(_, _, qty) => if |words| <= qty then qty - |words| else 0
        case _ => 0)
    case Writing(op, i) =>
      if op.Tick? then 0
      else (
        match Cmd(op)
        case PutBits(_, bits, _) => if i <= |bits| then |bits| - i else 0
        case PutWords(_, words, _) => if i <= |words| then |words| - i else 0
        case _ => 0)
    case _ => 0
  }

  function Stage(p: Phase): nat {
    match p
    case Idle => 0
    case Returning(_, _) => 1
    case Leaving(_, _) => 2
    case Reentering(_, _) => 3
    case Written(_, _) => 4
    case Incrementing(_) => 5
    case Writing(_, _) => 6
    case Announced(_) => 7
    case Wanting(_) => 8
    case Reading(_, _, _) => 9
    case Entering(_) => 10
    case Deciding(_) => 10
  }

  /** A bound on the steps an operation still needs. */
  function Work(p: Phase): nat {
    2001 * Stage(p) + CellsLeft(p)
  }

  lemma CellsLeftBound(p: Phase)
    ensures CellsLeft(p) <= 2000
  {
    hide Cmd;
  }

  lemma ReadWork(s: System, t: Tid)
    requires Inv(s) && Enabled(s, t) && s.threads[t].phase.Reading?
    ensures Work(ReadStep(s, t).threads[t].phase) < Work(s.threads[t].phase)
  {
    hide Replay, Sequential, Timed, CallsOk, LocksOk, GlobalOk, Cmd, NeedsWrite, Effect, Answer, BitTable, WordTable, BitsReply, WordsReply;
    assert ThreadOk(s, t);
    CellsLeftBound(ReadStep(s, t).threads[t].phase);
  }

  lemma WriteWork(s: System, t: Tid)
    requires Inv(s) && Enabled(s, t) && s.threads[t].phase.Writing?
    ensures Work(WriteStep(s, t).threads[t].phase) < Work(s.threads[t].phase)
  {
    hide Replay, Sequential, Timed, CallsOk, LocksOk, GlobalOk, Cmd, NeedsWrite, Effect, Answer, Overwrite;
    assert ThreadOk(s, t);
    CellsLeftBound(WriteStep(s, t).threads[t].phase);
  }

  lemma StageDecreases(s: System, t: Tid)
    requires Inv(s) && Enabled(s, t) && !s.threads[t].phase.Reading? && !s.threads[t].phase.Writing?
    ensures Stage(Advance(s, t).threads[t].phase) < Stage(s.threads[t].phase)
  {
    hide Inv, Cmd, NeedsWrite, Effect, Answer, ReadStep, WriteStep;
    if s.threads[t].phase.Deciding? {
      DecidingOnPath(s, t);
    }
  }

  lemma AdvanceCases(s: System, t: Tid)
    requires Enabled(s, t)
    ensures s.threads[t].phase.Reading? ==> Advance(s, t) == ReadStep(s, t)
    ensures s.threads[t].phase.Writing? ==> Advance(s, t) == WriteStep(s, t)
  {
    hide ReadStep, WriteStep, Cmd, Effect;
  }

  lemma StageWork(p: Phase, q: Phase)
    requires Stage(p) < Stage(q)
    ensures Work(p) < Work(q)
  {
    hide Stage, CellsLeft;
    CellsLeftBound(p);
  }

  lemma WorkDecreases(s: System, t: Tid)
    requires Inv(s) && Enabled(s, t)
    ensures Work(Advance(s, t).threads[t].phase) < Work(s.threads[t].phase)
  {
    hide Inv, Work, Stage, Cmd, ReadStep, WriteStep, Advance;
    AdvanceCases(s, t);
    if s.threads[t].phase.Reading? {
      ReadWork(s, t);
    } else if s.threads[t].phase.Writing? {
      WriteWork(s, t);
    } else {
      StageDecreases(s, t);
      StageWork(Advance(s, t).threads[t].phase, s.threads[t].phase);
    }
  }

  lemma DecidingOnPath(s: System, t: Tid)
    requires Inv(s) && t in s.threads && s.threads[t].phase.Deciding?
    ensures s.threads[t].phase.op.Tcp? && IsRefused(s.threads[t].phase.op)
  {
    hide GlobalOk, Cmd, LocksOk, CallsOk, DataOk;
    assert ThreadOk(s, t);
  }

  function TotalWork(threads: map<Tid, Thread>, n: nat): nat {
    if n == 0 then 0
    else (if n - 1 in threads then Work(threads[n - 1].phase) else 0) + TotalWork(threads, n - 1)
  }

  lemma {:induction false} TotalWorkDrops(threads: map<Tid, Thread>, t: Tid, th: Thread, n: nat)
    requires t in threads && Work(th.phase) < Work(threads[t].phase)
    ensures TotalWork(threads[t := th], n) + (if t < n then 1 else 0) <= TotalWork(threads, n)
    decreases n
  {
    hide Work;
    if n > 0 {
      TotalWorkDrops(threads, t, th, n - 1);
    }
  }

  lemma {:induction false} TidsAre(n: nat, t: Tid)
    ensures t in Tids(n) <==> t < n
    decreases n
  {
    if n > 0 {
      TidsAre(n - 1, t);
    }
  }

  /** Without new calls every run ends, after at most `TotalWork` steps, whatever the schedule;
      with `Progress`, a run that cannot go on has finished every operation. */
  lemma {:induction false} AllFinish(s: System, n: nat, moves: seq<Move>)
    requires Inv(s) && s.threads.Keys == Tids(n) && IsRun(s, moves)
    requires forall m | m in moves :: m.Continue?
    ensures |moves| <= TotalWork(s.threads, n)
    decreases moves
  {
    hide Inv, Advance, Enabled, Work;
    if moves != [] {
      var m := moves[0];
      assert m in moves;
      var s' := Do(s, m);
      DoInv(s, m);
      SameSystem(s, m.t);
      WorkDecreases(s, m.t);
      assert m.t in s.threads by {
        hide *;
        EnabledThread(s, m.t);
      }
      TidsAre(n, m.t);
      TotalWorkDrops(s.threads, m.t, s'.threads[m.t], n);
      AllFinish(s', n, moves[1..]);
    }
  }

  lemma EnabledThread(s: System, t: Tid)
    requires Enabled(s, t)
    ensures t in s.threads
  {
  }

  // ---------------------------------------------------------------------------
  // The counter
  // ---------------------------------------------------------------------------

  /** No request in the log wrote the counter. */
  ghost predicate CounterUntouched(log: seq<Entry>) {
    forall k | 0 <= k < |log| && !log[k].op.Tick? :: !Covers(log[k].op.pdu, false, COUNTER)
  }

  function Ticks(log: seq<Entry>): nat
    decreases |log|
  {
    if log == [] then 0 else Ticks(log[..|log| - 1]) + if log[|log| - 1].op.Tick? then 1 else 0
  }

  lemma RequestKeepsCounter(op: SafeOp, t: Store)
    requires !op.Tick? && !Covers(op.pdu, false, COUNTER)
    ensures Effect(op, t).holding[COUNTER] == t.holding[COUNTER]
  {
    hide Effect, Answer, HandleRtu, HandleTcp, WordOf, ReadOut, AskedWord, AskedCoil;
    AtomicMeaning(op, t);
    if op.Rtu? {
      RtuLawful(t, op.pdu);
    } else {
      TcpLawful(t, op.pdu);
    }
  }

  /** No tick is lost: the counter is its seed plus the ticks that took effect, modulo 65536. */
  lemma {:induction false} CounterValue(init: Store, log: seq<Entry>)
    requires CounterUntouched(log)
    ensures Replay(init, log).holding[COUNTER] == (init.holding[COUNTER] + Ticks(log)) % 0x1_0000
    decreases |log|
  {
    hide Effect, Covers;
    if log != [] {
      var before := log[..|log| - 1];
      CounterValue(init, before);
      var op := log[|log| - 1].op;
      var t := Replay(init, before);
      if op.Tick? {
        TickEffect(t);
      } else {
        RequestKeepsCounter(op, t);
      }
    }
  }

  lemma TickEffect(t: Store)
    ensures Effect(Tick, t).holding[COUNTER] == Increment(t.holding[COUNTER])
  {
  }

  /** Only thread `u` ticks, and it does nothing else. */
  ghost predicate UpdaterIs(log: seq<Entry>, u: Tid) {
    forall k | 0 <= k < |log| :: log[k].op.Tick? <==> log[k].tid == u
  }

  lemma {:induction false} TicksArePlaces(log: seq<Entry>, u: Tid)
    requires UpdaterIs(log, u)
    ensures Ticks(log) == |Places(log, u)|
    decreases |log|
  {
    if log != [] {
      TicksArePlaces(log[..|log| - 1], u);
    }
  }

  /** The calls of the run: thread `u` is the updater and nobody else ticks, and no request
      addresses the counter for writing. */
  ghost predicate OneUpdater(moves: seq<Move>, u: Tid) {
    forall m | m in moves && m.Call? :: (m.op.Tick? <==> m.t == u) && (!m.op.Tick? ==> !Covers(m.op.pdu, false, 100))
  }

  lemma {:induction false} CallsAreMoves(moves: seq<Move>, t: Tid, op: SafeOp)
    requires op in Calls(moves, t)
    ensures Call(t, op) in moves
    decreases moves
  {
    if moves[0].Call? && moves[0].t == t && moves[0].op == op {
      assert moves[0] == Call(t, op);
    } else {
      CallsAreMoves(moves[1..], t, op);
    }
  }

  lemma {:induction false} PlaceOf(log: seq<Entry>, k: nat)
    requires k < |log|
    ensures k in Places(log, log[k].tid)
    decreases |log|
  {
    if k < |log| - 1 {
      PlaceOf(log[..|log| - 1], k);
    }
  }

  /** An operation in the log was called on its thread. */
  lemma LoggedIsPerformed(s: System, k: nat)
    requires k < |s.log| && s.log[k].tid in s.threads && CallsOk(s, s.log[k].tid)
    ensures s.log[k].op in Performed(s.threads[s.log[k].tid])
  {
    hide Places;
    var th := s.threads[s.log[k].tid];
    PlaceOf(s.log, k);
    if k in Indexes(th.done) {
      var j :| 0 <= j < |th.done| && th.done[j].index == k;
      assert RecordOk(s.log, s.log[k].tid, th.done[j], s.clock);
      assert Ops(th.done)[j] == s.log[k].op;
    } else {
      assert th.phase.Committed() && k == th.index;
      assert Current(th.phase) == [s.log[k].op];
    }
  }

  lemma LogFollowsCalls(s: System, moves: seq<Move>, u: Tid)
    requires OneUpdater(moves, u) && Owned(s)
    requires forall t | t in s.threads :: CallsOk(s, t) && Performed(s.threads[t]) == Calls(moves, t)
    ensures UpdaterIs(s.log, u) && CounterUntouched(s.log)
  {
    hide CallsOk, Performed, Calls, Covers;
    forall k | 0 <= k < |s.log|
      ensures s.log[k].op.Tick? <==> s.log[k].tid == u
      ensures !s.log[k].op.Tick? ==> !Covers(s.log[k].op.pdu, false, COUNTER)
    {
      LoggedIsPerformed(s, k);
      CallsAreMoves(moves, s.log[k].tid, s.log[k].op);
    }
  }

  /** With one updater and no request writing the counter at address 100, its value is the seed plus every tick
      called, less the one that has not taken effect yet. */
  lemma NoTickLost(init: Store, n: nat, moves: seq<Move>, u: Tid)
    requires IsRun(Initial(init, n), moves) && u < n && OneUpdater(moves, u)
    requires After(Initial(init, n), moves).writer.None?
    ensures var s := After(Initial(init, n), moves);
            && u in s.threads
            && (forall k | 0 <= k < |Calls(moves, u)| :: Calls(moves, u)[k].Tick?)
            && (var late := if s.threads[u].phase.Idle? || s.threads[u].phase.Committed() then 0 else 1;
                s.store.holding[100] == (init.holding[100] + |Calls(moves, u)| - late) % 65536)
  {
    hide Inv, Initial, IsRun, After, Replay, CounterUntouched, UpdaterIs, CallsOk, Atomic, Performed, OneUpdater, Calls, Places;
    InvStart(init, n);
    RunInv(Initial(init, n), moves);
    StartParts(init, n);
    var s := After(Initial(init, n), moves);
    TidsAre(n, u);
    Linearizable(init, n, moves);
    LogFollowsCalls(s, moves, u);
    CounterValue(init, s.log);
    TicksArePlaces(s.log, u);
    CallCount(s, u);
    forall k | 0 <= k < |Calls(moves, u)|
      ensures Calls(moves, u)[k].Tick?
    {
      CallsAreMoves(moves, u, Calls(moves, u)[k]);
      TickedBy(moves, u, Calls(moves, u)[k]);
    }
  }

  lemma TickedBy(moves: seq<Move>, u: Tid, op: SafeOp)
    requires OneUpdater(moves, u) && Call(u, op) in moves
    ensures op.Tick?
  {
    hide Covers;
  }

  lemma CallCount(s: System, u: Tid)
    requires u in s.threads && CallsOk(s, u)
    ensures |Places(s.log, u)| + (if s.threads[u].phase.Idle? || s.threads[u].phase.Committed() then 0 else 1)
         == |Performed(s.threads[u])|
  {
    hide Places;
  }
}
