/** Many concurrent sessions against one line: the interleaved run of Concurrency, seen
    through the stream handlers. */
module Sessions {
  import opened Bytes
  import opened Engine
  import opened EngineLaws
  import opened Concurrency
  import Rtu = RtuStream
  import Tcp = TcpStream

  // ---------------------------------------------------------------------------
  // Serial sessions
  // ---------------------------------------------------------------------------

  predicate AllRtu(log: seq<Entry>) {
    forall e | e in log :: e.op.Rtu?
  }

  /** The logged requests, in log order, for one slave address. */
  function Requests(log: seq<Entry>, address: byte): (rs: seq<Rtu.Request>)
    requires AllRtu(log)
    ensures |rs| == |log|
  {
    seq(|log|, k requires 0 <= k < |log| => Rtu.Request(address, log[k].op.pdu))
  }

  /** The response frames that the sessions sent, in log order. */
  function Frames(log: seq<Entry>, address: byte): seq<byte>
    decreases |log|
  {
    if log == [] then [] else Frames(log[..|log| - 1], address) + Rtu.Frame(address, log[|log| - 1].reply)
  }

  lemma {:induction false} StoreAppend(t: Store, rs: seq<Rtu.Request>, r: Rtu.Request)
    ensures Rtu.RtuStore(t, rs + [r]) == HandleRtu(Rtu.RtuStore(t, rs), r.pdu).store
    ensures Rtu.RtuReplies(t, rs + [r]) == Rtu.RtuReplies(t, rs) + Rtu.RtuReplies(Rtu.RtuStore(t, rs), [r])
    decreases rs
  {
    hide HandleRtu, Rtu.Frame;
    if rs == [] {
      assert rs + [r] == [r] && [r][1..] == [];
    } else {
      assert (rs + [r])[0] == rs[0] && (rs + [r])[1..] == rs[1..] + [r];
      StoreAppend(HandleRtu(t, rs[0].pdu).store, rs[1..], r);
    }
  }

  lemma OneReply(t: Store, r: Rtu.Request)
    requires HandleRtu(t, r.pdu).outcome.Replied?
    ensures Rtu.RtuReplies(t, [r]) == Rtu.Frame(r.address, HandleRtu(t, r.pdu).outcome.reply)
  {
    hide HandleRtu, Rtu.Frame;
    assert [r][1..] == [];
  }

  lemma LogShrinks(init: Store, log: seq<Entry>)
    requires log != [] && Sequential(init, log)
    ensures var before, e := log[..|log| - 1], log[|log| - 1];
            && Sequential(init, before) && e.reply == Answer(e.op, Replay(init, before))
            && Replay(init, log) == Effect(e.op, Replay(init, before))
  {
    hide Effect, Answer;
    var before := log[..|log| - 1];
    assert forall k | 0 <= k < |before| :: before[..k] == log[..k];
  }

  lemma RequestsGrow(log: seq<Entry>, address: byte)
    requires log != [] && AllRtu(log)
    ensures var before, e := log[..|log| - 1], log[|log| - 1];
            && AllRtu(before) && e.op.Rtu?
            && Requests(log, address) == Requests(before, address) + [Rtu.Request(address, e.op.pdu)]
            && Frames(log, address) == Frames(before, address) + Rtu.Frame(address, e.reply)
  {
    hide Rtu.Frame;
    var before, e := log[..|log| - 1], log[|log| - 1];
    assert e in log && forall x | x in before :: x in log;
  }

  lemma {:induction false} LogIsSerial(init: Store, log: seq<Entry>, address: byte)
    requires AllRtu(log) && Sequential(init, log)
    ensures Rtu.RtuStore(init, Requests(log, address)) == Replay(init, log)
    ensures Rtu.RtuReplies(init, Requests(log, address)) == Frames(log, address)
    decreases |log|
  {
    hide HandleRtu, Effect, Answer, Rtu.Frame, Rtu.RtuStore, Rtu.RtuReplies, Sequential, AllRtu;
    if log == [] {
      NoRequests(init);
    } else {
      hide Replay, Frames, Requests;
      var before, e := log[..|log| - 1], log[|log| - 1];
      LogShrinks(init, log);
      RequestsGrow(log, address);
      LogIsSerial(init, before, address);
      StoreAppend(init, Requests(before, address), Rtu.Request(address, e.op.pdu));
      AtomicMeaning(e.op, Replay(init, before));
      OneReply(Replay(init, before), Rtu.Request(address, e.op.pdu));
    }
  }

  lemma NoRequests(init: Store)
    ensures Rtu.RtuStore(init, []) == init && Rtu.RtuReplies(init, []) == []
  {
  }

  /** Whatever the interleaving of any number of serial sessions, one line that carries the same
      requests in log order gets the same response frames and leaves the same tables. */
  lemma ParallelIsSerial(init: Store, n: nat, moves: seq<Move>, address: byte)
    requires IsRun(Initial(init, n), moves)
    requires After(Initial(init, n), moves).writer.None? && AllRtu(After(Initial(init, n), moves).log)
    ensures var s := After(Initial(init, n), moves);
            Rtu.ServeRtu(init, 0, Rtu.SendAll(Requests(s.log, address)))
            == Rtu.Session(Frames(s.log, address), s.store, Rtu.EndOfInput)
  {
    hide Initial, IsRun, After, Replay, Sequential, Inv, Atomic, CallsOk, Rtu.ServeRtu, Rtu.RtuStore, Rtu.RtuReplies;
    Linearizable(init, n, moves);
    var s := After(Initial(init, n), moves);
    InvStart(init, n);
    RunInv(Initial(init, n), moves);
    StartParts(init, n);
    InvParts(s);
    LogIsSerial(init, s.log, address);
    var rs := Requests(s.log, address);
    AllHeard(s.log, address);
    Rtu.RtuRoundTrip(init, 0, rs);
  }

  lemma AllHeard(log: seq<Entry>, address: byte)
    requires AllRtu(log)
    ensures var rs := Requests(log, address);
            Rtu.AllFramed(rs) && Rtu.Heard(0, rs) == rs && Rtu.Safe(rs)
  {
    hide Framed, ShortCoilWrite;
    var rs := Requests(log, address);
    HeardByZero(rs);
    forall r | r in rs
      ensures Framed(r.pdu) && !ShortCoilWrite(r.pdu)
    {
      var k :| 0 <= k < |rs| && rs[k] == r;
      AdmissibleOp(log[k].op);
    }
  }

  lemma AdmissibleOp(op: SafeOp)
    ensures Admissible(op)
  {
  }

  lemma {:induction false} HeardByZero(rs: seq<Rtu.Request>)
    ensures Rtu.Heard(0, rs) == rs
    decreases rs
  {
    if rs != [] {
      HeardByZero(rs[1..]);
    }
  }

  // ---------------------------------------------------------------------------
  // TCP sessions
  // ---------------------------------------------------------------------------

  predicate AllTcp(log: seq<Entry>) {
    forall e | e in log :: e.op.Tcp?
  }

  function LoggedPdus(log: seq<Entry>): (pdus: seq<seq<byte>>)
    requires AllTcp(log)
    ensures |pdus| == |log|
  {
    seq(|log|, k requires 0 <= k < |log| => log[k].op.pdu)
  }

  function LoggedReplies(log: seq<Entry>): (rs: seq<seq<byte>>)
    ensures |rs| == |log|
  {
    seq(|log|, k requires 0 <= k < |log| => log[k].reply)
  }

  lemma {:induction false} TcpAppend(t: Store, pdus: seq<seq<byte>>, p: seq<byte>)
    ensures TcpStore(t, pdus + [p]) == HandleTcp(TcpStore(t, pdus), p).store
    ensures TcpReplies(t, pdus + [p]) == TcpReplies(t, pdus) + [HandleTcp(TcpStore(t, pdus), p).reply]
    decreases pdus
  {
    hide HandleTcp;
    if pdus == [] {
      assert pdus + [p] == [p] && [p][1..] == [];
    } else {
      assert (pdus + [p])[0] == pdus[0] && (pdus + [p])[1..] == pdus[1..] + [p];
      TcpAppend(HandleTcp(t, pdus[0]).store, pdus[1..], p);
    }
  }

  lemma PdusGrow(log: seq<Entry>)
    requires log != [] && AllTcp(log)
    ensures var before, e := log[..|log| - 1], log[|log| - 1];
            && AllTcp(before) && e.op.Tcp?
            && LoggedPdus(log) == LoggedPdus(before) + [e.op.pdu]
            && LoggedReplies(log) == LoggedReplies(before) + [e.reply]
  {
    var before, e := log[..|log| - 1], log[|log| - 1];
    assert e in log && forall x | x in before :: x in log;
  }

  lemma {:induction false} LogIsTcpRun(init: Store, log: seq<Entry>)
    requires AllTcp(log) && Sequential(init, log)
    ensures TcpStore(init, LoggedPdus(log)) == Replay(init, log)
    ensures TcpReplies(init, LoggedPdus(log)) == LoggedReplies(log)
    decreases |log|
  {
    hide HandleTcp, Effect, Answer, TcpStore, TcpReplies, Sequential, AllTcp;
    if log == [] {
      NoPdus(init);
    } else {
      hide Replay, LoggedPdus, LoggedReplies;
      var before, e := log[..|log| - 1], log[|log| - 1];
      LogShrinks(init, log);
      PdusGrow(log);
      LogIsTcpRun(init, before);
      TcpAppend(init, LoggedPdus(before), e.op.pdu);
      AtomicMeaning(e.op, Replay(init, before));
    }
  }

  lemma NoPdus(init: Store)
    ensures TcpStore(init, []) == init && TcpReplies(init, []) == []
  {
  }

  /** The reply ADUs that the sessions sent, in log order, under the headers of these requests. */
  function ReplyAdus(adus: seq<Tcp.Adu>, log: seq<Entry>): (replies: seq<Tcp.Adu>)
    requires |adus| == |log|
    ensures |replies| == |log|
  {
    seq(|log|, k requires 0 <= k < |log| => Tcp.Adu(adus[k].transaction, 0, adus[k].unit, log[k].reply))
  }

  lemma RepliesAreAnswers(t: Store, adus: seq<Tcp.Adu>, log: seq<Entry>)
    requires |adus| == |log| && TcpReplies(t, Tcp.Pdus(adus)) == LoggedReplies(log)
    ensures Tcp.Answers(t, adus) == ReplyAdus(adus, log)
  {
    hide TcpReplies, Tcp.Pdus;
  }

  /** Whatever the interleaving of any number of TCP sessions, one connection that carries the
      same requests in log order, under any headers and with ADUs without a PDU in between, gets
      the same replies and leaves the same tables. */
  lemma ParallelIsOneByOne(init: Store, n: nat, moves: seq<Move>, adus: seq<Tcp.Adu>)
    requires IsRun(Initial(init, n), moves)
    requires After(Initial(init, n), moves).writer.None? && AllTcp(After(Initial(init, n), moves).log)
    requires Tcp.AllSendable(adus) && Tcp.Pdus(Tcp.Kept(adus)) == LoggedPdus(After(Initial(init, n), moves).log)
    ensures var s := After(Initial(init, n), moves);
            && |Tcp.Kept(adus)| == |s.log|
            && Tcp.AllSendable(ReplyAdus(Tcp.Kept(adus), s.log))
            && Tcp.ServeTcp(init, Tcp.EncodeAll(adus))
               == Tcp.Session(Tcp.EncodeAll(ReplyAdus(Tcp.Kept(adus), s.log)), s.store)
  {
    hide Initial, IsRun, After, Replay, Sequential, Inv, Atomic, CallsOk, TcpStore, TcpReplies, Tcp.ServeTcp, Tcp.Answers, Tcp.EncodeAll,
      ReplyAdus, Tcp.Kept, AllTcp, Tcp.AllSendable;
    InvStart(init, n);
    RunInv(Initial(init, n), moves);
    StartParts(init, n);
    var s := After(Initial(init, n), moves);
    InvParts(s);
    LogIsTcpRun(init, s.log);
    var kept := Tcp.Kept(adus);
    assert |kept| == |Tcp.Pdus(kept)| == |s.log|;
    RepliesAreAnswers(init, kept, s.log);
    Tcp.TcpSession(init, adus, []);
    Tcp.ServeNothing(s.store);
    assert Tcp.EncodeAll(adus) + [] == Tcp.EncodeAll(adus);
    var sent := Tcp.EncodeAll(ReplyAdus(kept, s.log));
    assert sent + [] == sent;
  }
}
