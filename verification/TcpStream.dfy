/** The TCP connection as a function from the octets received to the octets sent
    (MBAP framing, section 3.1.3 of "MODBUS Messaging on TCP/IP Implementation Guide V1.0b"). */
module TcpStream {
  import opened Bytes
  import opened Engine
  import opened EngineLaws

  const HEADER: nat := 7

  datatype Adu = Adu(transaction: word, protocol: word, unit: byte, pdu: seq<byte>) {
    /** The length field has room for the PDU and the unit. */
    predicate Sendable() {
      |pdu| + 1 < 0x1_0000
    }
  }

  function Encode(a: Adu): (bs: seq<byte>)
    requires a.Sendable()
    ensures |bs| == HEADER + |a.pdu|
  {
    BigEndian(a.transaction) + BigEndian(a.protocol) + BigEndian(|a.pdu| + 1) + [a.unit] + a.pdu
  }

  predicate AllSendable(adus: seq<Adu>) {
    forall a | a in adus :: a.Sendable()
  }

  function EncodeAll(adus: seq<Adu>): seq<byte>
    requires AllSendable(adus)
    decreases adus
  {
    if adus == [] then [] else Encode(adus[0]) + EncodeAll(adus[1..])
  }

  // ---------------------------------------------------------------------------
  // The server's side
  // ---------------------------------------------------------------------------

  function LengthField(header: seq<byte>): word
    requires |header| >= HEADER
  {
    WordOf(header[4], header[5])
  }

  /** The header sent back: the one received with protocol zero and a new length. */
  function ReplyHeader(header: seq<byte>, reply: seq<byte>): seq<byte>
    requires |header| >= HEADER && |reply| + 1 < 0x1_0000
  {
    header[..2] + [0, 0] + BigEndian(|reply| + 1) + [header[6]]
  }

  datatype Session = Session(output: seq<byte>, store: Store)

  /** `handleConnection`, reading until the input runs out. */
  function ServeTcp(t: Store, input: seq<byte>): Session
    decreases |input|
  {
    if |input| < HEADER then Session([], t)
    else if LengthField(input) <= 1 then ServeTcp(t, input[HEADER..])
    else
      var size := HEADER + LengthField(input) - 1;
      if |input| < size then Session([], t)
      else
        TcpLawful(t, input[HEADER..size]);
        var h := HandleTcp(t, input[HEADER..size]);
        var s := ServeTcp(h.store, input[size..]);
        Session(ReplyHeader(input, h.reply) + h.reply + s.output, s.store)
  }

  // ---------------------------------------------------------------------------
  // The master's side
  // ---------------------------------------------------------------------------

  /** Splitting received octets into ADUs. */
  function Parse(bs: seq<byte>): seq<Adu>
    decreases |bs|
  {
    if |bs| < HEADER || LengthField(bs) == 0 || |bs| < HEADER + LengthField(bs) - 1 then []
    else
      var size := HEADER + LengthField(bs) - 1;
      [Adu(WordOf(bs[0], bs[1]), WordOf(bs[2], bs[3]), bs[6], bs[HEADER..size])] + Parse(bs[size..])
  }

  lemma EncodeFields(a: Adu, rest: seq<byte>)
    requires a.Sendable()
    ensures var bs := Encode(a) + rest;
            && |bs| == HEADER + |a.pdu| + |rest|
            && LengthField(bs) == |a.pdu| + 1
            && WordOf(bs[0], bs[1]) == a.transaction
            && WordOf(bs[2], bs[3]) == a.protocol
            && bs[..2] == BigEndian(a.transaction)
            && bs[6] == a.unit
            && bs[HEADER..HEADER + |a.pdu|] == a.pdu
            && bs[HEADER + |a.pdu|..] == rest
  {
  }

  lemma {:induction false} ParseEncoded(adus: seq<Adu>)
    requires AllSendable(adus)
    ensures Parse(EncodeAll(adus)) == adus
    decreases adus
  {
    hide Encode, LengthField, WordOf;
    if adus == [] {
    } else {
      EncodeFields(adus[0], EncodeAll(adus[1..]));
      ParseEncoded(adus[1..]);
      assert adus[0] in adus;
    }
  }

  // ---------------------------------------------------------------------------
  // Whole sessions
  // ---------------------------------------------------------------------------

  /** The requests that carry a PDU; the server reads the others and ignores them. */
  function Kept(adus: seq<Adu>): seq<Adu>
    decreases adus
  {
    if adus == [] then [] else (if adus[0].pdu == [] then [] else [adus[0]]) + Kept(adus[1..])
  }

  function Pdus(adus: seq<Adu>): (pdus: seq<seq<byte>>)
    ensures |pdus| == |adus|
  {
    seq(|adus|, k requires 0 <= k < |adus| => adus[k].pdu)
  }

  /** One reply per request, in order, with the request's transaction and unit. */
  function Answers(t: Store, adus: seq<Adu>): (answers: seq<Adu>)
    ensures |answers| == |adus|
  {
    var replies := TcpReplies(t, Pdus(adus));
    seq(|adus|, k requires 0 <= k < |adus| => Adu(adus[k].transaction, 0, adus[k].unit, replies[k]))
  }

  lemma AnswersSendable(t: Store, adus: seq<Adu>)
    ensures AllSendable(Answers(t, adus))
  {
    TcpRun(t, Pdus(adus));
  }

  lemma AnswersCons(t: Store, adus: seq<Adu>)
    requires adus != []
    ensures var h := HandleTcp(t, adus[0].pdu);
            && Answers(t, adus) == [Adu(adus[0].transaction, 0, adus[0].unit, h.reply)] + Answers(h.store, adus[1..])
            && TcpStore(t, Pdus(adus)) == TcpStore(h.store, Pdus(adus[1..]))
  {
    hide HandleTcp;
    assert Pdus(adus)[1..] == Pdus(adus[1..]);
  }

  lemma ReplyHeaderIsEncode(a: Adu, rest: seq<byte>, reply: seq<byte>)
    requires a.Sendable() && |reply| + 1 < 0x1_0000
    ensures ReplyHeader(Encode(a) + rest, reply) + reply == Encode(Adu(a.transaction, 0, a.unit, reply))
  {
    hide Encode, ReplyHeader;
    EncodeFields(a, rest);
    ReplyHeaderFields(Encode(a) + rest, a.transaction, a.unit, reply);
  }

  lemma ReplyHeaderFields(header: seq<byte>, transaction: word, unit: byte, reply: seq<byte>)
    requires |header| >= HEADER && |reply| + 1 < 0x1_0000
    requires header[..2] == BigEndian(transaction) && header[6] == unit
    ensures ReplyHeader(header, reply) + reply == Encode(Adu(transaction, 0, unit, reply))
  {
    hide BigEndian;
    ZeroWord();
  }

  lemma ZeroWord()
    ensures BigEndian(0) == [0, 0]
  {
  }

  lemma {:induction false} EncodeAllCons(a: Adu, adus: seq<Adu>)
    requires a.Sendable() && AllSendable(adus)
    ensures AllSendable([a] + adus) && EncodeAll([a] + adus) == Encode(a) + EncodeAll(adus)
  {
    assert ([a] + adus)[1..] == adus;
  }

  lemma {:induction false} KeptSendable(adus: seq<Adu>)
    requires AllSendable(adus)
    ensures AllSendable(Kept(adus))
    decreases adus
  {
    if adus != [] {
      KeptSendable(adus[1..]);
      assert adus[0] in adus;
    }
  }

  lemma EncodeAnswers(t: Store, a: Adu, adus: seq<Adu>)
    requires a.Sendable() && AllSendable(adus)
    ensures var h := HandleTcp(t, a.pdu);
            && |h.reply| + 1 < 0x1_0000
            && AllSendable(Answers(t, [a] + adus)) && AllSendable(Answers(h.store, adus))
            && EncodeAll(Answers(t, [a] + adus)) == Encode(Adu(a.transaction, 0, a.unit, h.reply)) + EncodeAll(Answers(h.store, adus))
            && TcpStore(t, Pdus([a] + adus)) == TcpStore(h.store, Pdus(adus))
  {
    hide Encode, HandleTcp, Answers;
    var h := HandleTcp(t, a.pdu);
    TcpLawful(t, a.pdu);
    AnswersSendable(h.store, adus);
    AnswersCons(t, [a] + adus);
    assert ([a] + adus)[1..] == adus;
    EncodeAllCons(Adu(a.transaction, 0, a.unit, h.reply), Answers(h.store, adus));
  }

  /** Any list of requests, followed by anything: each request with a PDU is answered once, in
      order, by what `handlePDU` returns for it; then the rest is served from the final tables. */
  lemma {:induction false} TcpSession(t: Store, adus: seq<Adu>, rest: seq<byte>)
    requires AllSendable(adus)
    ensures AllSendable(Answers(t, Kept(adus)))
    ensures var after := ServeTcp(TcpStore(t, Pdus(Kept(adus))), rest);
            ServeTcp(t, EncodeAll(adus) + rest) == Session(EncodeAll(Answers(t, Kept(adus))) + after.output, after.store)
    decreases adus
  {
    hide Encode, HandleTcp, ReplyHeader, Answers, ServeTcp, Pdus, TcpStore;
    AnswersSendable(t, Kept(adus));
    if adus == [] {
      assert EncodeAll(adus) + rest == rest;
      NothingAsked(t);
    } else {
      var a, tail := adus[0], EncodeAll(adus[1..]) + rest;
      assert a in adus && AllSendable(adus[1..]);
      assert EncodeAll(adus) + rest == Encode(a) + tail;
      if a.pdu == [] {
        TcpSession(t, adus[1..], rest);
        IgnoredStep(t, a, tail);
        assert Kept(adus) == Kept(adus[1..]);
      } else {
        var h := HandleTcp(t, a.pdu);
        TcpSession(h.store, adus[1..], rest);
        SessionStep(t, a, tail);
        KeptSendable(adus[1..]);
        EncodeAnswers(t, a, Kept(adus[1..]));
        assert Kept(adus) == [a] + Kept(adus[1..]);
        var sent := EncodeAll(Answers(h.store, Kept(adus[1..])));
        Concat3(Encode(Adu(a.transaction, 0, a.unit, h.reply)), sent,
                ServeTcp(TcpStore(t, Pdus(Kept(adus))), rest).output);
      }
    }
  }

  lemma NothingAsked(t: Store)
    ensures Answers(t, []) == [] && TcpStore(t, Pdus([])) == t
  {
    assert Pdus([]) == [];
  }

  lemma IgnoredStep(t: Store, a: Adu, tail: seq<byte>)
    requires a.pdu == []
    ensures ServeTcp(t, Encode(a) + tail) == ServeTcp(t, tail)
  {
    hide Encode, LengthField, HandleTcp, ReplyHeader;
    EncodeFields(a, tail);
  }

  lemma SessionStep(t: Store, a: Adu, tail: seq<byte>)
    requires a.Sendable() && a.pdu != []
    ensures var h := HandleTcp(t, a.pdu);
            var s := ServeTcp(h.store, tail);
            && |h.reply| + 1 < 0x1_0000
            && ServeTcp(t, Encode(a) + tail) == Session(Encode(Adu(a.transaction, 0, a.unit, h.reply)) + s.output, s.store)
  {
    hide Encode, LengthField, HandleTcp, ReplyHeader;
    EncodeFields(a, tail);
    TcpLawful(t, a.pdu);
    ReplyHeaderIsEncode(a, tail, HandleTcp(t, a.pdu).reply);
  }

  /** What a master that sends only requests with a PDU gets back. */
  lemma TcpRoundTrip(t: Store, adus: seq<Adu>)
    requires AllSendable(adus) && forall a | a in adus :: a.pdu != []
    ensures Parse(ServeTcp(t, EncodeAll(adus)).output) == Answers(t, adus)
    ensures ServeTcp(t, EncodeAll(adus)).store == TcpStore(t, Pdus(adus))
  {
    hide Encode, LengthField, HandleTcp, ReplyHeader, Answers, ServeTcp;
    KeptAll(adus);
    TcpSession(t, adus, []);
    var after := TcpStore(t, Pdus(adus));
    assert ServeTcp(after, []) == Session([], after) by {
      ServeNothing(after);
    }
    assert EncodeAll(adus) + [] == EncodeAll(adus);
    assert EncodeAll(Answers(t, adus)) + [] == EncodeAll(Answers(t, adus));
    ParseEncoded(Answers(t, adus));
  }

  lemma ServeNothing(t: Store)
    ensures ServeTcp(t, []) == Session([], t)
  {
  }

  lemma {:induction false} KeptAll(adus: seq<Adu>)
    requires forall a | a in adus :: a.pdu != []
    ensures Kept(adus) == adus
    decreases adus
  {
    if adus != [] {
      KeptAll(adus[1..]);
      assert adus[0] in adus;
    }
  }

  /** Splitting the input after whole ADUs does not change what happens. */
  lemma TcpSplit(t: Store, adus: seq<Adu>, rest: seq<byte>)
    requires AllSendable(adus)
    ensures var first := ServeTcp(t, EncodeAll(adus));
            var second := ServeTcp(first.store, rest);
            ServeTcp(t, EncodeAll(adus) + rest) == Session(first.output + second.output, second.store)
  {
    hide Encode, LengthField, HandleTcp, ReplyHeader, Answers, ServeTcp;
    TcpSession(t, adus, rest);
    TcpSession(t, adus, []);
    ServeNothing(TcpStore(t, Pdus(Kept(adus))));
    assert EncodeAll(adus) + [] == EncodeAll(adus);
    AnswersSendable(t, Kept(adus));
    var sent := EncodeAll(Answers(t, Kept(adus)));
    assert sent + [] == sent;
  }
}
