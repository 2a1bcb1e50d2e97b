/** The serial line as a function from the octets received to the octets sent
    (RTU framing, section 2.5.1 of "MODBUS over Serial Line Specification and
    Implementation Guide V1.02"), and what damage on the line can do. */
module RtuStream {
  import opened Bytes
  import opened Crc16
  import opened Detection
  import opened Engine
  import opened EngineLaws

  /** Address, PDU and checksum, low octet first. */
  function Frame(address: byte, pdu: seq<byte>): (frame: seq<byte>)
    ensures |frame| == |pdu| + 3
  {
    [address] + pdu + Tail(Crc([address] + pdu))
  }

  lemma FrameParts(address: byte, pdu: seq<byte>)
    ensures var frame := Frame(address, pdu);
            frame[0] == address && frame[1..|frame| - 2] == pdu && Checks(frame)
  {
    hide Crc, TailWord, Tail;
    var body := [address] + pdu;
    var frame := Frame(address, pdu);
    TailRoundTrip(Crc(body));
    assert frame[..|frame| - 2] == body && frame[|frame| - 2..] == Tail(Crc(body));
  }

  // ---------------------------------------------------------------------------
  // The stream handler
  // ---------------------------------------------------------------------------

  datatype Scan = NeedMore | Unknown | Got(size: nat)

  predicate ShortFunction(fn: byte) {
    0x01 <= fn <= 0x06
  }

  predicate LongFunction(fn: byte) {
    fn == 0x0F || fn == 0x10
  }

  /** Where the frame at the head of the input ends: eight octets, or nine and the declared
      payload; an unsupported function code ends the connection. */
  function FindFrame(input: seq<byte>): (s: Scan)
    ensures s.Got? ==> 8 <= s.size <= |input|
  {
    if |input| < 2 then NeedMore
    else if ShortFunction(input[1]) then
      if |input| < 8 then NeedMore else Got(8)
    else if LongFunction(input[1]) then
      if |input| < 9 then NeedMore
      else
        var size: nat := 9 + (input[6] as nat);
        if |input| < size then NeedMore else Got(size)
    else Unknown
  }

  datatype End = EndOfInput | UnknownFunction | Crashed

  datatype Session = Session(output: seq<byte>, store: Store, end: End)

  /** A slave id of zero listens to every address. */
  predicate Hears(slave: byte, address: byte) {
    slave == 0 || address == slave
  }

  function Answer(o: Outcome): seq<byte>
    requires !o.Panicked?
  {
    if o.Replied? then o.reply else []
  }

  /** `handleStream` of cmd/mocktty/main.go, reading until the input runs out; `rtuStream` of
      cmd/server/main.go is the same with slave zero. */
  function ServeRtu(t: Store, slave: byte, input: seq<byte>): Session
    decreases |input|
  {
    match FindFrame(input)
    case NeedMore => Session([], t, EndOfInput)
    case Unknown => Session([], t, UnknownFunction)
    case Got(n) =>
      var frame := input[..n];
      if !Checks(frame) || !Hears(slave, frame[0]) then ServeRtu(t, slave, input[n..])
      else
        var h := HandleRtu(t, frame[1..n - 2]);
        if h.outcome.Panicked? then Session([], h.store, Crashed)
        else
          var s := ServeRtu(h.store, slave, input[n..]);
          s.(output := Frame(frame[0], Answer(h.outcome)) + s.output)
  }

  // ---------------------------------------------------------------------------
  // One frame
  // ---------------------------------------------------------------------------

  lemma FindPrefix(frame: seq<byte>, rest: seq<byte>)
    requires FindFrame(frame) == Got(|frame|)
    ensures FindFrame(frame + rest) == Got(|frame|)
  {
  }

  /** What one frame at the head of the input leads to. */
  lemma ServeStep(t: Store, slave: byte, frame: seq<byte>, rest: seq<byte>)
    requires FindFrame(frame) == Got(|frame|)
    ensures ServeRtu(t, slave, frame + rest) ==
            if !Checks(frame) || !Hears(slave, frame[0]) then ServeRtu(t, slave, rest)
            else
              var h := HandleRtu(t, frame[1..|frame| - 2]);
              if h.outcome.Panicked? then Session([], h.store, Crashed)
              else
                var s := ServeRtu(h.store, slave, rest);
                s.(output := Frame(frame[0], Answer(h.outcome)) + s.output)
  {
    hide FindFrame, Checks, HandleRtu, Frame, Hears;
    FindPrefix(frame, rest);
    assert (frame + rest)[..|frame|] == frame && (frame + rest)[|frame|..] == rest;
  }

  lemma SkipFrame(t: Store, slave: byte, frame: seq<byte>, rest: seq<byte>)
    requires FindFrame(frame) == Got(|frame|)
    requires !Checks(frame) || !Hears(slave, frame[0])
    ensures ServeRtu(t, slave, frame + rest) == ServeRtu(t, slave, rest)
  {
    hide FindFrame, Checks, HandleRtu, Frame, ServeRtu;
    ServeStep(t, slave, frame, rest);
  }

  lemma FramedIsFound(address: byte, pdu: seq<byte>)
    requires Framed(pdu)
    ensures FindFrame(Frame(address, pdu)) == Got(|Frame(address, pdu)|)
  {
    hide Crc, Tail;
  }

  /** A good request for this slave is answered and the rest served from the new tables. */
  lemma GoodFrame(t: Store, slave: byte, address: byte, pdu: seq<byte>, rest: seq<byte>)
    requires Framed(pdu) && Hears(slave, address)
    ensures !HandleRtu(t, pdu).outcome.Failed?
    ensures HandleRtu(t, pdu).outcome.Panicked? <==> ShortCoilWrite(pdu)
    ensures var h := HandleRtu(t, pdu);
            ServeRtu(t, slave, Frame(address, pdu) + rest) ==
            if h.outcome.Panicked? then Session([], h.store, Crashed)
            else
              var s := ServeRtu(h.store, slave, rest);
              s.(output := Frame(address, Answer(h.outcome)) + s.output)
  {
    hide FindFrame, Checks, HandleRtu, Frame, ShortCoilWrite, Hears, ServeRtu;
    FramedIsFound(address, pdu);
    FrameParts(address, pdu);
    RtuOutcome(t, pdu);
    ServeStep(t, slave, Frame(address, pdu), rest);
  }

  // ---------------------------------------------------------------------------
  // Whole sessions on a clean line
  // ---------------------------------------------------------------------------

  datatype Request = Request(address: byte, pdu: seq<byte>)

  predicate AllFramed(rs: seq<Request>) {
    forall r | r in rs :: Framed(r.pdu)
  }

  function SendAll(rs: seq<Request>): seq<byte>
    decreases rs
  {
    if rs == [] then [] else Frame(rs[0].address, rs[0].pdu) + SendAll(rs[1..])
  }

  function Heard(slave: byte, rs: seq<Request>): seq<Request>
    decreases rs
  {
    if rs == [] then [] else (if Hears(slave, rs[0].address) then [rs[0]] else []) + Heard(slave, rs[1..])
  }

  /** No request makes `handleRTUPDU` panic. */
  predicate Safe(rs: seq<Request>) {
    forall r | r in rs :: !ShortCoilWrite(r.pdu)
  }

  /** The tables after the requests, one whole PDU at a time. */
  function RtuStore(t: Store, rs: seq<Request>): Store
    decreases rs
  {
    if rs == [] then t else RtuStore(HandleRtu(t, rs[0].pdu).store, rs[1..])
  }

  /** The response frames, one per request, in order. */
  function RtuReplies(t: Store, rs: seq<Request>): seq<byte>
    decreases rs
  {
    if rs == [] then []
    else
      var h := HandleRtu(t, rs[0].pdu);
      (if h.outcome.Replied? then Frame(rs[0].address, h.outcome.reply) else []) + RtuReplies(h.store, rs[1..])
  }

  function RequestPdus(rs: seq<Request>): (pdus: seq<seq<byte>>)
    ensures |pdus| == |rs|
  {
    seq(|rs|, k requires 0 <= k < |rs| => rs[k].pdu)
  }

  function Outcomes(t: Store, rs: seq<Request>): (os: seq<Outcome>)
    ensures |os| == |rs|
    decreases rs
  {
    if rs == [] then [] else [HandleRtu(t, rs[0].pdu).outcome] + Outcomes(HandleRtu(t, rs[0].pdu).store, rs[1..])
  }

  function Replies(os: seq<Outcome>): (ok: seq<bool>)
    ensures |ok| == |os|
  {
    seq(|os|, k requires 0 <= k < |os| => os[k].Replied? && os[k].reply != [] && !IsException(os[k].reply))
  }

  /** The serial engine, over any run of requests that it survives: every cell is decided by the
      last answered write to it, the input tables never change, and every reply fits. */
  lemma {:induction false} RtuRun(t: Store, rs: seq<Request>)
    requires Safe(rs)
    ensures forall o | o in Outcomes(t, rs) :: !o.Panicked? && (o.Replied? ==> 2 <= |o.reply| <= 253)
    ensures RunApplied(t, RtuStore(t, rs), RequestPdus(rs), Replies(Outcomes(t, rs)))
    decreases rs
  {
    hide HandleRtu, OneApplied, Lawful, RunApplied, ShortCoilWrite;
    if rs == [] {
      NoRun(t);
    } else {
      assert rs[0] in rs && forall r | r in rs[1..] :: r in rs;
      var pdu := rs[0].pdu;
      var h := HandleRtu(t, pdu);
      RtuOutcome(t, pdu);
      if h.outcome.Replied? {
        RtuLawful(t, pdu);
        LawfulFits(t, pdu, h.outcome.reply, h.store);
        LawfulApplied(t, pdu, h.outcome.reply, h.store);
      } else {
        NothingApplied(t, pdu);
      }
      RtuRun(h.store, rs[1..]);
      var os := Outcomes(t, rs);
      assert os[0] == h.outcome && os[1..] == Outcomes(h.store, rs[1..]);
      assert Replies(os)[1..] == Replies(os[1..]) && RequestPdus(rs)[1..] == RequestPdus(rs[1..]);
      RunGrows(t, h.store, RtuStore(t, rs), RequestPdus(rs), Replies(os));
    }
  }

  lemma RequestsCons(t: Store, r: Request, rs: seq<Request>)
    requires Framed(r.pdu) && !ShortCoilWrite(r.pdu)
    ensures var h := HandleRtu(t, r.pdu);
            && h.outcome.Replied?
            && RtuReplies(t, [r] + rs) == Frame(r.address, h.outcome.reply) + RtuReplies(h.store, rs)
            && RtuStore(t, [r] + rs) == RtuStore(h.store, rs)
  {
    hide Framed, Frame, HandleRtu, ShortCoilWrite;
    RtuOutcome(t, r.pdu);
    assert ([r] + rs)[1..] == rs;
  }

  lemma HeardCons(slave: byte, rs: seq<Request>)
    requires rs != []
    ensures Heard(slave, rs) == (if Hears(slave, rs[0].address) then [rs[0]] else []) + Heard(slave, rs[1..])
  {
  }

  lemma UnheardFrame(t: Store, slave: byte, r: Request, rest: seq<byte>)
    requires Framed(r.pdu) && !Hears(slave, r.address)
    ensures ServeRtu(t, slave, Frame(r.address, r.pdu) + rest) == ServeRtu(t, slave, rest)
  {
    hide Framed, Frame, Checks, FindFrame, ServeRtu, Hears;
    FramedIsFound(r.address, r.pdu);
    FrameParts(r.address, r.pdu);
    SkipFrame(t, slave, Frame(r.address, r.pdu), rest);
  }

  /** The session after one answered request, given the session after the rest. */
  lemma AnsweredThen(t: Store, slave: byte, r: Request, later: seq<Request>, tail: seq<byte>, rest: seq<byte>)
    requires Framed(r.pdu) && Hears(slave, r.address) && !ShortCoilWrite(r.pdu)
    requires var t' := HandleRtu(t, r.pdu).store;
             var s := ServeRtu(RtuStore(t', later), slave, rest);
             ServeRtu(t', slave, tail) == s.(output := RtuReplies(t', later) + s.output)
    ensures var s := ServeRtu(RtuStore(t, [r] + later), slave, rest);
            ServeRtu(t, slave, Frame(r.address, r.pdu) + tail) == s.(output := RtuReplies(t, [r] + later) + s.output)
  {
    hide Framed, Frame, ServeRtu, HandleRtu, Hears, ShortCoilWrite, RtuReplies, RtuStore;
    GoodFrame(t, slave, r.address, r.pdu, tail);
    RequestsCons(t, r, later);
    var h := HandleRtu(t, r.pdu);
    Concat3(Frame(r.address, h.outcome.reply), RtuReplies(h.store, later), ServeRtu(RtuStore(t, [r] + later), slave, rest).output);
  }

  /** Any list of well-formed requests, followed by anything: the requests for this slave are
      answered in order, then the rest is served from the final tables. */
  lemma {:induction false} RtuSession(t: Store, slave: byte, rs: seq<Request>, rest: seq<byte>)
    requires AllFramed(rs) && Safe(Heard(slave, rs))
    ensures var heard := Heard(slave, rs);
            var s := ServeRtu(RtuStore(t, heard), slave, rest);
            ServeRtu(t, slave, SendAll(rs) + rest) == s.(output := RtuReplies(t, heard) + s.output)
    decreases rs
  {
    hide Framed, Frame, ServeRtu, HandleRtu, Hears, ShortCoilWrite;
    if rs == [] {
      assert SendAll(rs) + rest == rest;
      assert RtuReplies(t, []) + ServeRtu(t, slave, rest).output == ServeRtu(t, slave, rest).output;
    } else {
      hide RtuReplies, RtuStore, Heard;
      var r, tail := rs[0], SendAll(rs[1..]) + rest;
      assert r in rs && AllFramed(rs[1..]);
      assert SendAll(rs) + rest == Frame(r.address, r.pdu) + tail;
      HeardCons(slave, rs);
      var later := Heard(slave, rs[1..]);
      if Hears(slave, r.address) {
        assert r in Heard(slave, rs) && Safe(later);
        RtuSession(HandleRtu(t, r.pdu).store, slave, rs[1..], rest);
        AnsweredThen(t, slave, r, later, tail, rest);
      } else {
        assert Heard(slave, rs) == later;
        UnheardFrame(t, slave, r, tail);
        RtuSession(t, slave, rs[1..], rest);
      }
    }
  }

  lemma ServeNothing(t: Store, slave: byte)
    ensures ServeRtu(t, slave, []) == Session([], t, EndOfInput)
  {
  }

  /** The place of the first request that makes `handleRTUPDU` panic. */
  function FirstShort(rs: seq<Request>): (k: nat)
    ensures k <= |rs| && Safe(rs[..k])
    ensures k < |rs| ==> ShortCoilWrite(rs[k].pdu)
    decreases rs
  {
    if rs == [] || ShortCoilWrite(rs[0].pdu) then 0
    else
      assert rs[..1 + FirstShort(rs[1..])] == [rs[0]] + rs[1..][..FirstShort(rs[1..])];
      1 + FirstShort(rs[1..])
  }

  lemma SafeAll(rs: seq<Request>)
    ensures Safe(rs) <==> FirstShort(rs) == |rs|
  {
    hide ShortCoilWrite, FirstShort;
    assert rs[..|rs|] == rs;
    if FirstShort(rs) < |rs| {
      assert rs[FirstShort(rs)] in rs;
    }
  }

  /** Cutting a list of requests where the heard ones are to be cut. */
  lemma {:induction false} CutHeard(slave: byte, rs: seq<Request>, k: nat) returns (n: nat)
    requires k < |Heard(slave, rs)|
    ensures n < |rs| && rs[n] == Heard(slave, rs)[k] && Hears(slave, rs[n].address)
    ensures Heard(slave, rs[..n]) == Heard(slave, rs)[..k]
    decreases rs
  {
    HeardCons(slave, rs);
    if Hears(slave, rs[0].address) && k == 0 {
      n := 0;
    } else {
      var heard := if Hears(slave, rs[0].address) then k - 1 else k;
      var m := CutHeard(slave, rs[1..], heard);
      n := m + 1;
      assert rs[..n][0] == rs[0] && rs[..n][1..] == rs[1..][..m];
      HeardCons(slave, rs[..n]);
    }
  }

  lemma {:induction false} SendSplit(a: seq<Request>, b: seq<Request>)
    ensures SendAll(a + b) == SendAll(a) + SendAll(b)
    decreases a
  {
    hide Frame;
    if a == [] {
      assert a + b == b;
    } else {
      assert (a + b)[0] == a[0] && (a + b)[1..] == a[1..] + b;
      SendSplit(a[1..], b);
    }
  }

  /** Up to the first short coil write it hears the handler answers every request; it goes through
      the whole list exactly when there is none, and else it ends in the middle of that write. */
  lemma RtuRoundTrip(t: Store, slave: byte, rs: seq<Request>)
    requires AllFramed(rs)
    ensures var heard := Heard(slave, rs);
            var k := FirstShort(heard);
            var t' := RtuStore(t, heard[..k]);
            ServeRtu(t, slave, SendAll(rs))
            == if k == |heard| then Session(RtuReplies(t, heard), RtuStore(t, heard), EndOfInput)
               else Session(RtuReplies(t, heard[..k]), HandleRtu(t', heard[k].pdu).store, Crashed)
  {
    hide Framed, Frame, ServeRtu, HandleRtu, Hears, ShortCoilWrite, FirstShort, Heard, RtuReplies, RtuStore, SendAll;
    var heard := Heard(slave, rs);
    var k := FirstShort(heard);
    SafeAll(heard);
    if k == |heard| {
      RtuSession(t, slave, rs, []);
      ServeNothing(RtuStore(t, heard), slave);
      assert SendAll(rs) + [] == SendAll(rs) && RtuReplies(t, heard) + [] == RtuReplies(t, heard);
    } else {
      var n := CutHeard(slave, rs, k);
      var r, later := rs[n], SendAll(rs[n + 1..]);
      assert rs == rs[..n] + rs[n..] && rs[n..] == [r] + rs[n + 1..];
      SendSplit(rs[..n], rs[n..]);
      SendCons(r, rs[n + 1..]);
      RtuSession(t, slave, rs[..n], SendAll(rs[n..]));
      GoodFrame(RtuStore(t, heard[..k]), slave, r.address, r.pdu, later);
      assert RtuReplies(t, heard[..k]) + [] == RtuReplies(t, heard[..k]);
    }
  }

  lemma SendCons(r: Request, rs: seq<Request>)
    ensures SendAll([r] + rs) == Frame(r.address, r.pdu) + SendAll(rs)
  {
    hide Frame;
    assert ([r] + rs)[1..] == rs;
  }

  /** Such a frame exists: nine coils with one octet, from any address that is heard. */
  lemma ShortWriteCrashes(t: Store, slave: byte, address: byte, rest: seq<byte>)
    requires Hears(slave, address)
    ensures ServeRtu(t, slave, Frame(address, LongRequest(0x0F, 0, 9, [0xFF])) + rest).end == Crashed
  {
    hide Frame, HandleRtu, ServeRtu, Hears, Framed, ShortCoilWrite;
    LooseCoilWritesExist();
    GoodFrame(t, slave, address, LongRequest(0x0F, 0, 9, [0xFF]), rest);
  }

  // ---------------------------------------------------------------------------
  // A damaged line
  // ---------------------------------------------------------------------------

  /** Octets that the handler reads as whole frames, each with a bad checksum or for another
      slave. */
  predicate Skipped(slave: byte, input: seq<byte>)
    decreases |input|
  {
    || input == []
    || (match FindFrame(input)
        case Got(n) => (!Checks(input[..n]) || !Hears(slave, input[0])) && Skipped(slave, input[n..])
        case _ => false)
  }

  lemma FindMore(input: seq<byte>, rest: seq<byte>)
    requires FindFrame(input).Got?
    ensures FindFrame(input + rest) == FindFrame(input)
  {
  }

  /** The octets before the end of a found frame are its frame, whatever follows. */
  lemma SkipOne(t: Store, slave: byte, input: seq<byte>, rest: seq<byte>)
    requires FindFrame(input).Got?
    requires var n := FindFrame(input).size; !Checks(input[..n]) || !Hears(slave, input[0])
    ensures ServeRtu(t, slave, input + rest) == ServeRtu(t, slave, input[FindFrame(input).size..] + rest)
  {
    hide FindFrame, Checks, HandleRtu, Frame, Hears;
    var n := FindFrame(input).size;
    FindMore(input, rest);
    assert (input + rest)[..n] == input[..n] && (input + rest)[n..] == input[n..] + rest;
  }

  lemma FoundIsFramed(input: seq<byte>)
    requires FindFrame(input).Got?
    ensures Framed(input[1..FindFrame(input).size - 2])
  {
  }

  /** A frame that is heard leaves a trace: an answer, or a crash. */
  lemma HeardFrameShows(t: Store, slave: byte, input: seq<byte>)
    requires FindFrame(input).Got?
    requires var n := FindFrame(input).size; Checks(input[..n]) && Hears(slave, input[0])
    ensures ServeRtu(t, slave, input) != Session([], t, EndOfInput)
  {
    hide FindFrame, Checks, HandleRtu, Hears, Framed, ShortCoilWrite, Crc, Tail;
    FoundIsFramed(input);
    RtuOutcome(t, input[1..FindFrame(input).size - 2]);
  }

  /** One octet waits for the function code, which is then no known one. */
  lemma ShortInputs(t: Store, slave: byte)
    ensures ServeRtu(t, slave, [0]) == Session([], t, EndOfInput)
    ensures ServeRtu(t, slave, [0, 0]) == Session([], t, UnknownFunction)
  {
  }

  lemma EndsShort(t: Store, slave: byte, input: seq<byte>)
    requires FindFrame(input).Got? && FindFrame(input).size + 1 >= |input|
    ensures !ServeRtu(t, slave, input).end.UnknownFunction?
  {
    hide FindFrame, Checks, HandleRtu, Frame, Hears;
    var n := FindFrame(input).size;
    var rest := input[n..];
    assert FindFrame(rest).NeedMore? by {
      NeedsTwo(rest);
    }
  }

  lemma NeedsTwo(input: seq<byte>)
    requires |input| < 2
    ensures FindFrame(input).NeedMore?
  {
  }

  /** An unfinished frame takes octets from what follows. */
  lemma UnfinishedShows(t: Store, slave: byte, input: seq<byte>)
    requires input != [] && FindFrame(input).NeedMore?
    ensures exists rest :: ServeRtu(t, slave, input + rest) != ServeRtu(t, slave, rest)
  {
    hide ServeRtu;
    ShortInputs(t, slave);
    if |input| == 1 {
      UnknownEnds(t, slave, input + [0]);
      assert ServeRtu(t, slave, input + [0]) != ServeRtu(t, slave, [0]);
    } else {
      var longer := input + [0, 0];
      assert FindFrame(longer).NeedMore? || (FindFrame(longer).Got? && FindFrame(longer).size > |input|);
      if FindFrame(longer).Got? {
        EndsShort(t, slave, longer);
      } else {
        WaitsForMore(t, slave, longer);
      }
      assert ServeRtu(t, slave, longer) != ServeRtu(t, slave, [0, 0]);
    }
  }

  lemma WaitsForMore(t: Store, slave: byte, input: seq<byte>)
    requires FindFrame(input).NeedMore?
    ensures ServeRtu(t, slave, input) == Session([], t, EndOfInput)
  {
  }

  lemma UnknownEnds(t: Store, slave: byte, input: seq<byte>)
    requires |input| >= 2 && !ShortFunction(input[1]) && !LongFunction(input[1])
    ensures ServeRtu(t, slave, input) == Session([], t, UnknownFunction)
  {
  }

  ghost predicate AsIfNotSent(t: Store, slave: byte, input: seq<byte>) {
    forall rest :: ServeRtu(t, slave, input + rest) == ServeRtu(t, slave, rest)
  }

  /** Octets on the line are without effect, whatever follows, exactly when the handler skips them
      as whole frames. */
  lemma {:induction false} ContainedExactly(t: Store, slave: byte, input: seq<byte>)
    ensures AsIfNotSent(t, slave, input) <==> Skipped(slave, input)
    decreases |input|
  {
    hide ServeRtu, FindFrame, Checks, Hears;
    if input == [] {
      NothingSent(t, slave);
    } else {
      match FindFrame(input) {
        case NeedMore => UnfinishedShows(t, slave, input);
        case Unknown => UnknownShows(t, slave, input);
        case Got(n) =>
          if !Checks(input[..n]) || !Hears(slave, input[0]) {
            ContainedExactly(t, slave, input[n..]);
            SkipAlike(t, slave, input);
          } else {
            HeardFrameShows(t, slave, input);
            NotNothing(t, slave, input);
          }
      }
    }
  }

  lemma NothingSent(t: Store, slave: byte)
    ensures AsIfNotSent(t, slave, [])
  {
    hide ServeRtu;
    forall rest: seq<byte>
      ensures ServeRtu(t, slave, [] + rest) == ServeRtu(t, slave, rest)
    {
      assert [] + rest == rest;
    }
  }

  lemma NotNothing(t: Store, slave: byte, input: seq<byte>)
    requires ServeRtu(t, slave, input) != Session([], t, EndOfInput)
    ensures !AsIfNotSent(t, slave, input)
  {
    hide ServeRtu;
    ServeNothing(t, slave);
    assert input + [] == input;
    assert ServeRtu(t, slave, input + []) != ServeRtu(t, slave, []);
  }

  lemma UnknownShows(t: Store, slave: byte, input: seq<byte>)
    requires FindFrame(input).Unknown?
    ensures !AsIfNotSent(t, slave, input)
  {
    hide ServeRtu, AsIfNotSent;
    UnknownEnds(t, slave, input);
    NotNothing(t, slave, input);
  }

  lemma SkipAlike(t: Store, slave: byte, input: seq<byte>)
    requires FindFrame(input).Got?
    requires var n := FindFrame(input).size; !Checks(input[..n]) || !Hears(slave, input[0])
    ensures AsIfNotSent(t, slave, input) <==> AsIfNotSent(t, slave, input[FindFrame(input).size..])
  {
    hide ServeRtu, FindFrame, Checks, Hears;
    forall rest: seq<byte>
      ensures ServeRtu(t, slave, input + rest) == ServeRtu(t, slave, input[FindFrame(input).size..] + rest)
    {
      SkipOne(t, slave, input, rest);
    }
  }

  /** The damage leaves the function code of the same kind and a long frame its octet count. */
  predicate KeepsBoundaries(frame: seq<byte>, error: seq<byte>)
    requires |frame| == |error| >= 8
  {
    var damaged := XorBytes(frame, error);
    if ShortFunction(frame[1]) then ShortFunction(damaged[1])
    else LongFunction(damaged[1]) && damaged[6] == frame[6]
  }

  /** It does when the octets that delimit the frame are untouched. */
  lemma IntactBoundaries(frame: seq<byte>, error: seq<byte>)
    requires FindFrame(frame) == Got(|frame|) && |error| == |frame|
    requires error[1] == 0 && (LongFunction(frame[1]) ==> error[6] == 0)
    ensures KeepsBoundaries(frame, error)
  {
    hide XorByte;
    XorByteZero(frame[1]);
    XorByteZero(frame[6]);
  }

  lemma DamagedIsFound(frame: seq<byte>, error: seq<byte>)
    requires FindFrame(frame) == Got(|frame|) && |error| == |frame|
    ensures FindFrame(XorBytes(frame, error)) == Got(|frame|) <==> KeepsBoundaries(frame, error)
  {
    hide XorByte;
  }

  lemma SkippedFrame(slave: byte, frame: seq<byte>)
    requires FindFrame(frame) == Got(|frame|)
    ensures Skipped(slave, frame) <==> !Checks(frame) || !Hears(slave, frame[0])
  {
    hide FindFrame, Checks, Hears;
    assert frame[..|frame|] == frame && frame[|frame|..] == [];
  }

  /** A damaged frame with its boundaries kept leaves the tables alone, is not answered, and has no
      effect on whatever follows, exactly when the syndrome of the damage is not zero or the address
      it arrives with is not heard. */
  lemma DamageContained(t: Store, slave: byte, address: byte, pdu: seq<byte>, error: seq<byte>)
    requires Framed(pdu) && |error| == |Frame(address, pdu)|
    requires KeepsBoundaries(Frame(address, pdu), error)
    ensures var damaged := XorBytes(Frame(address, pdu), error);
            && (Skipped(slave, damaged) <==> Syndrome(error) != 0 || !Hears(slave, damaged[0]))
            && (AsIfNotSent(t, slave, damaged) <==> Syndrome(error) != 0 || !Hears(slave, damaged[0]))
  {
    hide FindFrame, Frame, Checks, Syndrome, KeepsBoundaries, Framed, XorBytes, Skipped, AsIfNotSent, Hears;
    var frame := Frame(address, pdu);
    FramedIsFound(address, pdu);
    FrameParts(address, pdu);
    DamagedIsFound(frame, error);
    DamagePasses(frame, error);
    SkippedFrame(slave, XorBytes(frame, error));
    ContainedExactly(t, slave, XorBytes(frame, error));
  }

  /** Any damage within 16 consecutive bits is contained. */
  lemma BurstContained(t: Store, slave: byte, address: byte, pdu: seq<byte>, error: seq<byte>, p: nat)
    requires Framed(pdu) && |error| == |Frame(address, pdu)|
    requires KeepsBoundaries(Frame(address, pdu), error)
    requires Burst(MessageBits(error), p) && exists k | 0 <= k < |error| :: error[k] != 0
    ensures AsIfNotSent(t, slave, XorBytes(Frame(address, pdu), error))
  {
    hide Frame, Syndrome, AsIfNotSent, Skipped, KeepsBoundaries, Framed, XorBytes, Burst, MessageBits;
    BurstDamageFound(error, p);
    DamageContained(t, slave, address, pdu, error);
  }

  /** Any odd number of flipped bits is contained. */
  lemma OddContained(t: Store, slave: byte, address: byte, pdu: seq<byte>, error: seq<byte>)
    requires Framed(pdu) && |error| == |Frame(address, pdu)|
    requires KeepsBoundaries(Frame(address, pdu), error)
    requires Odd(Ones(MessageBits(error)))
    ensures AsIfNotSent(t, slave, XorBytes(Frame(address, pdu), error))
  {
    hide Frame, Syndrome, AsIfNotSent, Skipped, KeepsBoundaries, Framed, XorBytes, Ones, MessageBits;
    OddDamageFound(error);
    DamageContained(t, slave, address, pdu, error);
  }

  lemma HighBitFlipped(o: bv8)
    requires o < 0x80
    ensures XorOctet(o, 0x80) >= 0x80
  {
  }

  lemma HighOctet(b: byte)
    ensures Octet(b) >= 0x80 <==> b >= 0x80
  {
    NatOfOctet(b);
    OctetOrder(Octet(b));
  }

  lemma OctetOrder(o: bv8)
    ensures o >= 0x80 <==> o as nat >= 0x80
  {
  }

  /** One flipped bit that is not contained: the high bit of the function code ends the connection,
      whatever follows. */
  lemma FunctionDamageSpills(t: Store, slave: byte, address: byte, pdu: seq<byte>, rest: seq<byte>)
    requires Framed(pdu)
    ensures var damaged := XorBytes(Frame(address, pdu), Zeros(|Frame(address, pdu)|)[1 := 0x80]);
            !Skipped(slave, damaged) && ServeRtu(t, slave, damaged + rest) == Session([], t, UnknownFunction)
  {
    hide Frame, Octet, XorOctet, ServeRtu;
    FrameParts(address, pdu);
    var frame := Frame(address, pdu);
    var damaged := XorBytes(frame, Zeros(|frame|)[1 := 0x80]);
    assert frame[1] == frame[1..|frame| - 2][0] == pdu[0];
    HighOctet(pdu[0]);
    HighBitFlipped(Octet(pdu[0]));
    XorByteOctet(pdu[0], 0x80);
    assert Octet(0x80) == 0x80 by {
      OctetOfNat(0x80);
    }
    HighOctet(damaged[1]);
    UnknownEnds(t, slave, damaged + rest);
  }

  /** A request and the damage it met on the way: none, or one that makes the handler skip it. */
  datatype Transmission = Transmission(request: Request, error: seq<byte>) {
    predicate Fits() {
      |error| == |request.pdu| + 3
    }

    predicate WellFormed(slave: byte)
      requires Fits()
    {
      && Framed(request.pdu)
      && (Clean() || Skipped(slave, XorBytes(Frame(request.address, request.pdu), error)))
    }

    predicate Clean() {
      error == Zeros(|error|)
    }

    function Octets(): seq<byte>
      requires Fits()
    {
      XorBytes(Frame(request.address, request.pdu), error)
    }
  }

  type Sent = x: Transmission | x.Fits() witness Transmission(Request(0, []), [0, 0, 0])

  function LineAll(xs: seq<Sent>): seq<byte>
    decreases xs
  {
    if xs == [] then [] else xs[0].Octets() + LineAll(xs[1..])
  }

  /** The requests that arrived whole. */
  function Arrived(xs: seq<Sent>): seq<Request>
    decreases xs
  {
    if xs == [] then [] else (if xs[0].Clean() then [xs[0].request] else []) + Arrived(xs[1..])
  }

  /** Two inputs with the same tail behind one good frame. */
  lemma SameFrameFirst(t: Store, slave: byte, r: Request, a: seq<byte>, b: seq<byte>)
    requires Framed(r.pdu)
    requires forall t' :: ServeRtu(t', slave, a) == ServeRtu(t', slave, b)
    ensures ServeRtu(t, slave, Frame(r.address, r.pdu) + a) == ServeRtu(t, slave, Frame(r.address, r.pdu) + b)
  {
    hide Framed, Frame, ServeRtu, HandleRtu, Hears, ShortCoilWrite;
    if Hears(slave, r.address) {
      GoodFrame(t, slave, r.address, r.pdu, a);
      GoodFrame(t, slave, r.address, r.pdu, b);
    } else {
      UnheardFrame(t, slave, r, a);
      UnheardFrame(t, slave, r, b);
    }
  }

  lemma ArrivedCons(xs: seq<Sent>)
    requires xs != []
    ensures xs[0].Clean() ==> SendAll(Arrived(xs)) == Frame(xs[0].request.address, xs[0].request.pdu) + SendAll(Arrived(xs[1..]))
    ensures !xs[0].Clean() ==> Arrived(xs) == Arrived(xs[1..])
  {
    hide Frame;
    assert xs[0].Clean() ==> Arrived(xs)[1..] == Arrived(xs[1..]);
  }

  /** One transmission in front of two inputs with the same effect. */
  lemma NoisyStep(t: Store, slave: byte, x: Sent, a: seq<byte>, b: seq<byte>)
    requires x.WellFormed(slave)
    requires forall t' :: ServeRtu(t', slave, a) == ServeRtu(t', slave, b)
    ensures ServeRtu(t, slave, x.Octets() + a)
         == ServeRtu(t, slave, if x.Clean() then Frame(x.request.address, x.request.pdu) + b else b)
  {
    hide Framed, Frame, ServeRtu, XorBytes, Skipped, Zeros;
    if x.Clean() {
      XorWithZeros(Frame(x.request.address, x.request.pdu));
      SameFrameFirst(t, slave, x.request, a, b);
    } else {
      ContainedExactly(t, slave, x.Octets());
    }
  }

  lemma LineAllCons(xs: seq<Sent>, rest: seq<byte>)
    requires xs != []
    ensures LineAll(xs) + rest == xs[0].Octets() + (LineAll(xs[1..]) + rest)
    ensures SendAll(Arrived(xs)) + rest
         == if xs[0].Clean() then Frame(xs[0].request.address, xs[0].request.pdu) + (SendAll(Arrived(xs[1..])) + rest)
            else SendAll(Arrived(xs[1..])) + rest
  {
    hide Frame, XorBytes, Zeros, SendAll, Arrived;
    ArrivedCons(xs);
    Concat3(xs[0].Octets(), LineAll(xs[1..]), rest);
    Concat3(Frame(xs[0].request.address, xs[0].request.pdu), SendAll(Arrived(xs[1..])), rest);
  }

  /** A whole noisy session equals the clean session of the requests that arrived whole. */
  lemma {:induction false} NoisyLine(t: Store, slave: byte, xs: seq<Sent>, rest: seq<byte>)
    requires forall x | x in xs :: x.WellFormed(slave)
    ensures ServeRtu(t, slave, LineAll(xs) + rest) == ServeRtu(t, slave, SendAll(Arrived(xs)) + rest)
    decreases xs
  {
    hide Framed, Frame, ServeRtu, XorBytes, Skipped, Zeros;
    if xs != [] {
      hide SendAll, Arrived, LineAll;
      assert xs[0] in xs && forall x | x in xs[1..] :: x in xs;
      forall t'
        ensures ServeRtu(t', slave, LineAll(xs[1..]) + rest) == ServeRtu(t', slave, SendAll(Arrived(xs[1..])) + rest)
      {
        NoisyLine(t', slave, xs[1..], rest);
      }
      LineAllCons(xs, rest);
      NoisyStep(t, slave, xs[0], LineAll(xs[1..]) + rest, SendAll(Arrived(xs[1..])) + rest);
    }
  }
}
