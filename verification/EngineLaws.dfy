/** Laws of the request engines: what one request may change, how requests compose,
    and where the TCP and the serial engine agree. */
module EngineLaws {
  import opened Bytes
  import opened Packing
  import opened Engine
  import opened Options

  // ---------------------------------------------------------------------------
  // Requests as a master builds them
  // ---------------------------------------------------------------------------

  function ShortRequest(fn: byte, first: word, second: word): (pdu: seq<byte>)
    ensures |pdu| == 5 && pdu[0] == fn && Start(pdu) == first && Count(pdu) == second
  {
    [fn] + BigEndian(first) + BigEndian(second)
  }

  function LongRequest(fn: byte, start: word, qty: word, payload: seq<byte>): (pdu: seq<byte>)
    requires |payload| < 0x100
    ensures |pdu| == 6 + |payload| && pdu[0] == fn && Start(pdu) == start && Count(pdu) == qty
    ensures ByteCount(pdu) == |payload| && pdu[6..] == payload
  {
    ShortRequest(fn, start, qty) + [|payload|] + payload
  }

  // ---------------------------------------------------------------------------
  // All or nothing
  // ---------------------------------------------------------------------------

  predicate IsException(reply: seq<byte>)
    requires reply != []
  {
    reply[0] >= 0x80
  }

  /** The number of table cells a request addresses. */
  function Cells(pdu: seq<byte>): nat
    requires |pdu| >= 5
  {
    if pdu[0] == 0x05 || pdu[0] == 0x06 then 1 else Count(pdu)
  }

  /** The coil state a write request asks for at its `i`-th coil. */
  predicate AskedCoil(pdu: seq<byte>, i: nat)
    requires |pdu| >= 5
    requires pdu[0] == 0x0F ==> |pdu| >= 6 && i < 8 * |pdu[6..]|
  {
    if pdu[0] == 0x0F then BitOf(pdu[6..], i) else Count(pdu) == COIL_ON
  }

  function AskedWord(pdu: seq<byte>, i: nat): word
    requires |pdu| >= 5
    requires pdu[0] == 0x10 ==> 2 * i + 7 < |pdu|
  {
    if pdu[0] == 0x10 then WordOf(pdu[2 * i + 6], pdu[2 * i + 7]) else Count(pdu)
  }

  /** `t'` is `t` with the cells the request addresses set to what it asks for. */
  predicate Written(t: Store, t': Store, pdu: seq<byte>) {
    && |pdu| >= 5
    && t'.discretes == t.discretes
    && t'.inputs == t.inputs
    && (if pdu[0] == 0x05 || pdu[0] == 0x0F then
          && t'.holding == t.holding
          && (pdu[0] == 0x0F ==> |pdu| >= 6 && Cells(pdu) <= 8 * |pdu[6..]|)
          && (forall a | 0 <= a < SIZE ::
                t'.coils[a] == if Start(pdu) <= a < Start(pdu) + Cells(pdu) then AskedCoil(pdu, a - Start(pdu)) else t.coils[a])
        else
          && t'.coils == t.coils
          && (pdu[0] == 0x10 ==> 2 * Cells(pdu) + 6 <= |pdu|)
          && (forall a | 0 <= a < SIZE ::
                t'.holding[a] == if Start(pdu) <= a < Start(pdu) + Cells(pdu) then AskedWord(pdu, a - Start(pdu)) else t.holding[a]))
  }

  predicate IsRead(fn: byte) {
    fn == 0x01 || fn == 0x02 || fn == 0x03 || fn == 0x04
  }

  predicate IsWrite(fn: byte) {
    fn == 0x05 || fn == 0x06 || fn == 0x0F || fn == 0x10
  }

  /** `reply` carries the cells a read request asks for: coils packed with clear padding, registers
      high octet first. */
  predicate ReadOut(t: Store, pdu: seq<byte>, reply: seq<byte>) {
    && |pdu| >= 5
    && |reply| >= 2
    && Start(pdu) + Count(pdu) <= SIZE
    && (if pdu[0] == 0x01 || pdu[0] == 0x02 then
          && |reply| == 2 + OctetsFor(Count(pdu))
          && (forall i | 0 <= i < 8 * |reply[2..]| ::
                BitOf(reply[2..], i) <==> i < Count(pdu) && BitTable(t, pdu[0])[Start(pdu) + i])
        else
          && |reply| == 2 + 2 * Count(pdu)
          && (forall i | 0 <= i < Count(pdu) ::
                WordOf(reply[2 * i + 2], reply[2 * i + 3]) == WordTable(t, pdu[0])[Start(pdu) + i]))
  }

  /** What a reply allows the tables to have become. */
  predicate Lawful(t: Store, pdu: seq<byte>, reply: seq<byte>, t': Store) {
    && 2 <= |reply| <= 253
    && (if IsException(reply) then
          && |reply| == 2 && t' == t && 1 <= reply[1] <= 3
          && (pdu != [] && pdu[0] < 0x80 ==> reply[0] == pdu[0] + 0x80)
        else
          && pdu != [] && reply[0] == pdu[0]
          && (IsRead(pdu[0]) || IsWrite(pdu[0]))
          && (IsRead(pdu[0]) ==> reply[1] == |reply| - 2 && ReadOut(t, pdu, reply) && t' == t)
          && (IsWrite(pdu[0]) ==> |pdu| >= 5 && reply == pdu[..5] && Written(t, t', pdu)))
  }

  lemma CommandLawful(t: Store, pdu: seq<byte>, c: Checked)
    requires !c.Abort?
    requires c.Refuse? ==> && 1 <= c.reply[1] <= 3
                           && (pdu != [] && pdu[0] < 0x80 ==> c.reply[0] == pdu[0] + 0x80)
    requires c.GetBits? || c.GetWords? ==> && |pdu| >= 5 && c.fn == pdu[0]
                                           && c.start == Start(pdu) && c.qty == Count(pdu)
    requires c.PutBits? ==> && |pdu| >= 5 && c.echo == pdu[..5] && c.start == Start(pdu) && |c.bits| == Cells(pdu)
                            && (pdu[0] == 0x05 || pdu[0] == 0x0F)
                            && (pdu[0] == 0x0F ==> |pdu| >= 6 && Cells(pdu) <= 8 * |pdu[6..]|)
                            && (forall i | 0 <= i < |c.bits| :: c.bits[i] == AskedCoil(pdu, i))
    requires c.PutWords? ==> && |pdu| >= 5 && c.echo == pdu[..5] && c.start == Start(pdu) && |c.words| == Cells(pdu)
                             && (pdu[0] == 0x06 || pdu[0] == 0x10)
                             && (pdu[0] == 0x10 ==> 2 * Cells(pdu) + 6 <= |pdu|)
                             && (forall i | 0 <= i < |c.words| :: c.words[i] == AskedWord(pdu, i))
    ensures Lawful(t, pdu, Reply(c, t), Apply(c, t))
  {
    hide Pack, BitOf, WordBytes, WordOf, BytesWords;
    if c.GetBits? {
      var bits := BitTable(t, c.fn)[c.start..c.start + c.qty];
      var reply := BitsReply(c.fn, bits);
      assert reply[2..] == Pack(bits);
      forall i | 0 <= i < 8 * |Pack(bits)|
        ensures BitOf(Pack(bits), i) <==> i < c.qty && BitTable(t, c.fn)[c.start + i]
      {
        PackBit(bits, i);
      }
    } else if c.GetWords? {
      var words := WordTable(t, c.fn)[c.start..c.start + c.qty];
      var reply := WordsReply(c.fn, words);
      assert reply[2..] == WordBytes(words);
      forall i | 0 <= i < c.qty
        ensures WordOf(reply[2 * i + 2], reply[2 * i + 3]) == WordTable(t, c.fn)[c.start + i]
      {
        WordsRoundTrip(words);
        WordInBytes(reply[2..], i);
      }
    } else if c.PutBits? {
      assert Written(t, Apply(c, t), pdu);
    } else if c.PutWords? {
      assert Written(t, Apply(c, t), pdu);
    }
  }

  lemma WordInBytes(bs: seq<byte>, i: nat)
    requires 2 * i + 1 < |bs|
    ensures BytesWords(bs)[i] == WordOf(bs[2 * i], bs[2 * i + 1])
  {
  }

  lemma PayloadWord(pdu: seq<byte>, i: nat)
    requires |pdu| >= 6 && 2 * i + 7 < |pdu|
    ensures BytesWords(pdu[6..])[i] == WordOf(pdu[2 * i + 6], pdu[2 * i + 7])
  {
    assert pdu[6..][2 * i] == pdu[2 * i + 6] && pdu[6..][2 * i + 1] == pdu[2 * i + 7];
  }

  /** The TCP engine, for every PDU: an exception changes nothing, a read changes nothing and
      declares its length, a write echoes the request and changes exactly the cells asked for. */
  lemma TcpLawful(t: Store, pdu: seq<byte>)
    ensures Lawful(t, pdu, HandleTcp(t, pdu).reply, HandleTcp(t, pdu).store)
  {
    hide Lawful, Reply, Apply, WordOf, BitOf, OctetsFor;
    var c := DecodeTcp(pdu);
    if c.PutWords? && pdu[0] == 0x10 {
      forall i | 0 <= i < |c.words|
        ensures c.words[i] == AskedWord(pdu, i)
      {
        PayloadWord(pdu, i);
      }
    }
    if c.PutBits? && pdu[0] == 0x0F {
      OctetsEnough(Count(pdu));
    }
    CommandLawful(t, pdu, c);
  }

  /** The requests that sections 6.1 to 6.6, 6.11 and 6.12 of the protocol specification allow. */
  predicate Acceptable(pdu: seq<byte>) {
    WellFormed(pdu) && Start(pdu) + Cells(pdu) <= SIZE
  }

  predicate WellFormed(pdu: seq<byte>) {
    && |pdu| >= 5
    && (|| ((pdu[0] == 0x01 || pdu[0] == 0x02) && 1 <= Count(pdu) <= 0x7D0)
        || ((pdu[0] == 0x03 || pdu[0] == 0x04) && 1 <= Count(pdu) <= 0x7D)
        || (pdu[0] == 0x05 && |pdu| == 5 && (Count(pdu) == 0x0000 || Count(pdu) == 0xFF00))
        || (pdu[0] == 0x06 && |pdu| == 5)
        || (pdu[0] == 0x0F && |pdu| >= 6 && 1 <= Count(pdu) <= 0x7B0
            && ByteCount(pdu) == |pdu| - 6 && ByteCount(pdu) == OctetsFor(Count(pdu)))
        || (pdu[0] == 0x10 && |pdu| >= 6 && 1 <= Count(pdu) <= 0x7B
            && ByteCount(pdu) == |pdu| - 6 && ByteCount(pdu) == 2 * Count(pdu)))
  }

  /** The TCP engine accepts exactly the allowed requests, and says which check the others failed. */
  lemma TcpAccepts(t: Store, pdu: seq<byte>)
    ensures var reply := HandleTcp(t, pdu).reply;
            var fn := if pdu == [] then 0 else pdu[0];
            if !(IsRead(fn) || IsWrite(fn)) then reply == Exception(fn, ILLEGAL_FUNCTION)
            else if !WellFormed(pdu) then reply == Exception(fn, ILLEGAL_VALUE)
            else if !Acceptable(pdu) then reply == Exception(fn, ILLEGAL_ADDRESS)
            else reply != [] && !IsException(reply)
  {
    hide Pack, WordBytes, Overwrite, WordOf, Unpack, BytesWords;
  }

  lemma OctetsEnough(n: nat)
    ensures n <= 8 * OctetsFor(n) < n + 8
  {
  }

  /** The serial engine, for every PDU it replies to. */
  lemma RtuLawful(t: Store, pdu: seq<byte>)
    requires HandleRtu(t, pdu).outcome.Replied?
    ensures Lawful(t, pdu, HandleRtu(t, pdu).outcome.reply, HandleRtu(t, pdu).store)
  {
    hide Lawful, Reply, Apply, WordOf, BitOf, OctetsFor;
    var c := DecodeRtu(pdu).command;
    if c.PutWords? && pdu[0] == 0x10 {
      forall i | 0 <= i < |c.words|
        ensures c.words[i] == AskedWord(pdu, i)
      {
        PayloadWord(pdu, i);
      }
    }
    CommandLawful(t, pdu, c);
  }

  // ---------------------------------------------------------------------------
  // Runs
  // ---------------------------------------------------------------------------

  function TcpStore(t: Store, pdus: seq<seq<byte>>): Store
    decreases pdus
  {
    if pdus == [] then t else TcpStore(HandleTcp(t, pdus[0]).store, pdus[1..])
  }

  function TcpReplies(t: Store, pdus: seq<seq<byte>>): (rs: seq<seq<byte>>)
    ensures |rs| == |pdus|
    decreases pdus
  {
    if pdus == [] then []
    else [HandleTcp(t, pdus[0]).reply] + TcpReplies(HandleTcp(t, pdus[0]).store, pdus[1..])
  }

  /** A write request addresses this coil (register). */
  predicate Covers(pdu: seq<byte>, coil: bool, a: nat) {
    && |pdu| >= 5
    && (if coil then pdu[0] == 0x05 || pdu[0] == 0x0F else pdu[0] == 0x06 || pdu[0] == 0x10)
    && Start(pdu) <= a < Start(pdu) + Cells(pdu)
  }

  /** The request addresses the cell for writing and has the payload for all its cells. */
  predicate Writes(pdu: seq<byte>, coil: bool, a: nat) {
    && Covers(pdu, coil, a)
    && (pdu[0] == 0x0F ==> |pdu| >= 6 && Cells(pdu) <= 8 * |pdu[6..]|)
    && (pdu[0] == 0x10 ==> 2 * Cells(pdu) + 6 <= |pdu|)
  }

  /** Request `k` was answered normally and writes the cell, and no later one was and does. */
  predicate Decides(pdus: seq<seq<byte>>, ok: seq<bool>, k: nat, coil: bool, a: nat)
    requires |ok| == |pdus|
  {
    && k < |pdus| && ok[k] && Writes(pdus[k], coil, a)
    && (forall j | k < j < |pdus| && ok[j] :: !Writes(pdus[j], coil, a))
  }

  /** The request of a run that decides what the cell holds. */
  function LastWriter(pdus: seq<seq<byte>>, ok: seq<bool>, coil: bool, a: nat): (k: Option<nat>)
    requires |ok| == |pdus|
    ensures k.Some? ==> k.value < |pdus| && Decides(pdus, ok, k.value, coil, a)
    ensures k.None? ==> forall j | 0 <= j < |pdus| && ok[j] :: !Writes(pdus[j], coil, a)
    decreases pdus
  {
    hide Writes;
    if pdus == [] then None
    else
      var later := LastWriter(pdus[1..], ok[1..], coil, a);
      assert forall j | 0 < j < |pdus| :: pdus[j] == pdus[1..][j - 1] && ok[j] == ok[1..][j - 1];
      if later.Some? then Some(later.value + 1)
      else if ok[0] && Writes(pdus[0], coil, a) then Some(0)
      else None
  }

  /** Every coil and register holds what the last answered request that writes it asked for, or
      what it held before the run. */
  predicate RunApplied(t: Store, t': Store, pdus: seq<seq<byte>>, ok: seq<bool>)
    requires |ok| == |pdus|
  {
    && t'.discretes == t.discretes
    && t'.inputs == t.inputs
    && (forall a | 0 <= a < SIZE :: t'.coils[a] == CoilAfter(t, pdus, ok, a) && t'.holding[a] == RegisterAfter(t, pdus, ok, a))
  }

  predicate CoilAfter(t: Store, pdus: seq<seq<byte>>, ok: seq<bool>, a: nat)
    requires |ok| == |pdus| && a < SIZE
  {
    match LastWriter(pdus, ok, true, a)
    case None => t.coils[a]
    case Some(k) => AskedCoil(pdus[k], a - Start(pdus[k]))
  }

  function RegisterAfter(t: Store, pdus: seq<seq<byte>>, ok: seq<bool>, a: nat): word
    requires |ok| == |pdus| && a < SIZE
  {
    match LastWriter(pdus, ok, false, a)
    case None => t.holding[a]
    case Some(k) => AskedWord(pdus[k], a - Start(pdus[k]))
  }

  /** What one answered or refused request leaves in a cell. */
  predicate OneApplied(t: Store, t': Store, pdu: seq<byte>, ok: bool) {
    && t'.discretes == t.discretes
    && t'.inputs == t.inputs
    && (forall a | 0 <= a < SIZE ::
          && t'.coils[a] == (if ok && Writes(pdu, true, a) then AskedCoil(pdu, a - Start(pdu)) else t.coils[a])
          && t'.holding[a] == if ok && Writes(pdu, false, a) then AskedWord(pdu, a - Start(pdu)) else t.holding[a])
  }

  lemma LawfulApplied(t: Store, pdu: seq<byte>, reply: seq<byte>, t': Store)
    requires Lawful(t, pdu, reply, t')
    ensures OneApplied(t, t', pdu, !IsException(reply))
  {
    hide ReadOut, WordOf, BitOf, AskedCoil, AskedWord;
  }

  lemma CellsGrow(t: Store, t': Store, pdus: seq<seq<byte>>, ok: seq<bool>, a: nat)
    requires pdus != [] && |ok| == |pdus| && a < SIZE
    requires OneApplied(t, t', pdus[0], ok[0])
    ensures CoilAfter(t, pdus, ok, a) == CoilAfter(t', pdus[1..], ok[1..], a)
    ensures RegisterAfter(t, pdus, ok, a) == RegisterAfter(t', pdus[1..], ok[1..], a)
  {
    hide Writes, AskedCoil, AskedWord, Start, Decides;
    LastWriterCons(pdus, ok, true, a);
    LastWriterCons(pdus, ok, false, a);
  }

  lemma LastWriterCons(pdus: seq<seq<byte>>, ok: seq<bool>, coil: bool, a: nat)
    requires pdus != [] && |ok| == |pdus|
    ensures var later := LastWriter(pdus[1..], ok[1..], coil, a);
            LastWriter(pdus, ok, coil, a)
            == if later.Some? then Some(later.value + 1) else if ok[0] && Writes(pdus[0], coil, a) then Some(0) else None
  {
    hide Writes, Decides;
  }

  /** A run from its first request and the rest. */
  lemma RunGrows(t: Store, t': Store, t'': Store, pdus: seq<seq<byte>>, ok: seq<bool>)
    requires pdus != [] && |ok| == |pdus|
    requires OneApplied(t, t', pdus[0], ok[0]) && RunApplied(t', t'', pdus[1..], ok[1..])
    ensures RunApplied(t, t'', pdus, ok)
  {
    hide Writes, AskedCoil, AskedWord, Start, CoilAfter, RegisterAfter;
    forall a | 0 <= a < SIZE
      ensures t''.coils[a] == CoilAfter(t, pdus, ok, a)
      ensures t''.holding[a] == RegisterAfter(t, pdus, ok, a)
    {
      CellsGrow(t, t', pdus, ok, a);
    }
  }

  function Answered(replies: seq<seq<byte>>): (ok: seq<bool>)
    ensures |ok| == |replies|
  {
    seq(|replies|, k requires 0 <= k < |replies| => replies[k] != [] && !IsException(replies[k]))
  }

  /** The TCP engine, over any run of PDUs: every cell is decided by the last answered write to it,
      the input tables never change, and every reply fits. */
  lemma {:induction false} TcpRun(t: Store, pdus: seq<seq<byte>>)
    ensures forall k | 0 <= k < |pdus| :: 2 <= |TcpReplies(t, pdus)[k]| <= 253
    ensures RunApplied(t, TcpStore(t, pdus), pdus, Answered(TcpReplies(t, pdus)))
    decreases pdus
  {
    hide HandleTcp, OneApplied, Lawful, RunApplied;
    if pdus == [] {
      NoRun(t);
    } else {
      var h := HandleTcp(t, pdus[0]);
      TcpLawful(t, pdus[0]);
      LawfulFits(t, pdus[0], h.reply, h.store);
      LawfulApplied(t, pdus[0], h.reply, h.store);
      TcpRun(h.store, pdus[1..]);
      var rs := TcpReplies(t, pdus);
      assert rs[0] == h.reply && rs[1..] == TcpReplies(h.store, pdus[1..]);
      assert Answered(rs)[1..] == Answered(rs[1..]);
      RunGrows(t, h.store, TcpStore(t, pdus), pdus, Answered(rs));
    }
  }

  lemma LawfulFits(t: Store, pdu: seq<byte>, reply: seq<byte>, t': Store)
    requires Lawful(t, pdu, reply, t')
    ensures 2 <= |reply| <= 253
  {
  }

  lemma NoRun(t: Store)
    ensures RunApplied(t, t, [], [])
  {
  }

  lemma NothingApplied(t: Store, pdu: seq<byte>)
    ensures OneApplied(t, t, pdu, false)
  {
  }

  // ---------------------------------------------------------------------------
  // Writing and reading back
  // ---------------------------------------------------------------------------

  lemma OverwriteReads<T>(s: seq<T>, at: nat, vs: seq<T>)
    requires at + |vs| <= |s|
    ensures Overwrite(s, at, vs)[at..at + |vs|] == vs
  {
  }

  lemma OverwriteSame<T>(s: seq<T>, at: nat, n: nat)
    requires at + n <= |s|
    ensures Overwrite(s, at, s[at..at + n]) == s
  {
  }

  lemma OverwriteAppend<T>(s: seq<T>, at: nat, a: seq<T>, b: seq<T>)
    requires at + |a| + |b| <= |s|
    ensures Overwrite(Overwrite(s, at, a), at + |a|, b) == Overwrite(s, at, a + b)
  {
  }

  lemma DecodeCoilWrite(start: word, qty: word, payload: seq<byte>)
    requires 0 < qty <= 1968 && start + qty <= SIZE && |payload| == OctetsFor(qty)
    ensures |payload| <= 246
    ensures var pdu := LongRequest(0x0F, start, qty, payload);
            DecodeTcp(pdu) == PutBits(start, Unpack(payload, qty), pdu[..5])
  {
    hide BitOf, WordOf;
  }

  lemma DecodeBitRead(fn: byte, start: word, qty: word)
    requires (fn == 0x01 || fn == 0x02) && 0 < qty <= 2000 && start + qty <= SIZE
    ensures DecodeTcp(ShortRequest(fn, start, qty)) == GetBits(fn, start, qty)
  {
    hide WordOf;
  }

  lemma DecodeWordWrite(start: word, qty: word, payload: seq<byte>)
    requires 0 < qty <= 123 && start + qty <= SIZE && |payload| == 2 * qty
    ensures var pdu := LongRequest(0x10, start, qty, payload);
            DecodeTcp(pdu) == PutWords(start, BytesWords(payload), pdu[..5])
  {
    hide WordOf, BytesWords;
  }

  lemma DecodeWordRead(fn: byte, start: word, qty: word)
    requires (fn == 0x03 || fn == 0x04) && 0 < qty <= 125 && start + qty <= SIZE
    ensures DecodeTcp(ShortRequest(fn, start, qty)) == GetWords(fn, start, qty)
  {
    hide WordOf;
  }

  lemma CoilWriteStore(t: Store, start: word, qty: word, payload: seq<byte>)
    requires 0 < qty <= 1968 && start + qty <= SIZE && |payload| == OctetsFor(qty)
    ensures |payload| <= 246
    ensures HandleTcp(t, LongRequest(0x0F, start, qty, payload)).store
         == t.(coils := Overwrite(t.coils, start, Unpack(payload, qty)))
  {
    hide Overwrite, LongRequest, DecodeTcp, Unpack;
    DecodeCoilWrite(start, qty, payload);
  }

  lemma WordWriteStore(t: Store, start: word, qty: word, payload: seq<byte>)
    requires 0 < qty <= 123 && start + qty <= SIZE && |payload| == 2 * qty
    ensures HandleTcp(t, LongRequest(0x10, start, qty, payload)).store
         == t.(holding := Overwrite(t.holding, start, BytesWords(payload)))
  {
    hide Overwrite, LongRequest, DecodeTcp, BytesWords;
    DecodeWordWrite(start, qty, payload);
  }

  lemma DecodeOneCoil(a: word, on: bool)
    ensures var pdu := ShortRequest(0x05, a, if on then COIL_ON else COIL_OFF);
            DecodeTcp(pdu) == PutBits(a, [on], pdu)
  {
    hide WordOf;
  }

  lemma OneCoilStore(t: Store, a: word, on: bool)
    ensures HandleTcp(t, ShortRequest(0x05, a, if on then COIL_ON else COIL_OFF)).store
         == t.(coils := Overwrite(t.coils, a, [on]))
  {
    hide DecodeTcp, ShortRequest, Overwrite;
    DecodeOneCoil(a, on);
  }

  lemma DecodeOneWord(a: word, w: word)
    ensures var pdu := ShortRequest(0x06, a, w);
            DecodeTcp(pdu) == PutWords(a, [w], pdu)
  {
    hide WordOf;
  }

  lemma OneWordStore(t: Store, a: word, w: word)
    ensures HandleTcp(t, ShortRequest(0x06, a, w)).store == t.(holding := Overwrite(t.holding, a, [w]))
  {
    hide DecodeTcp, ShortRequest, Overwrite;
    DecodeOneWord(a, w);
  }

  /** Coils written by 0x0F are read back by 0x01 as the same octets, padding cleared. */
  lemma CoilsRoundTrip(t: Store, start: word, qty: word, payload: seq<byte>)
    requires 0 < qty <= 1968 && start + qty <= SIZE && |payload| == OctetsFor(qty)
    ensures |payload| <= 246
    ensures var after := HandleTcp(t, LongRequest(0x0F, start, qty, payload)).store;
            HandleTcp(after, ShortRequest(0x01, start, qty)).reply == [0x01, |payload|] + ClearPadding(payload, qty)
  {
    hide Overwrite, ShortRequest, LongRequest, HandleTcp, Pack, Unpack, ClearPadding;
    CoilWriteStore(t, start, qty, payload);
    CoilRead(HandleTcp(t, LongRequest(0x0F, start, qty, payload)).store, start, qty);
    OverwriteReads(t.coils, start, Unpack(payload, qty));
    PackUnpack(payload, qty);
  }

  lemma CoilRead(t: Store, start: word, qty: word)
    requires 0 < qty <= 2000 && start + qty <= SIZE
    ensures HandleTcp(t, ShortRequest(0x01, start, qty)).reply == BitsReply(0x01, t.coils[start..start + qty])
  {
    hide ShortRequest, DecodeTcp, Pack;
    DecodeBitRead(0x01, start, qty);
  }

  /** Writing back what 0x01 returned leaves every table as it was. */
  lemma CoilsWriteBack(t: Store, start: word, qty: word)
    requires 0 < qty <= 1968 && start + qty <= SIZE
    ensures |HandleTcp(t, ShortRequest(0x01, start, qty)).reply| == 2 + OctetsFor(qty)
    ensures OctetsFor(qty) <= 246
    ensures var data := HandleTcp(t, ShortRequest(0x01, start, qty)).reply[2..];
            HandleTcp(t, LongRequest(0x0F, start, qty, data)).store == t
  {
    hide Overwrite, ShortRequest, LongRequest, DecodeTcp, Pack, Unpack;
    DecodeBitRead(0x01, start, qty);
    var bits := t.coils[start..start + qty];
    assert HandleTcp(t, ShortRequest(0x01, start, qty)).reply[2..] == Pack(bits);
    DecodeCoilWrite(start, qty, Pack(bits));
    UnpackPack(bits);
    OverwriteSame(t.coils, start, qty);
  }

  /** Registers written by 0x10 are read back by 0x03 as the same octets. */
  lemma RegistersRoundTrip(t: Store, start: word, qty: word, payload: seq<byte>)
    requires 0 < qty <= 123 && start + qty <= SIZE && |payload| == 2 * qty
    ensures var after := HandleTcp(t, LongRequest(0x10, start, qty, payload)).store;
            HandleTcp(after, ShortRequest(0x03, start, qty)).reply == [0x03, 2 * qty] + payload
  {
    hide Overwrite, ShortRequest, LongRequest, DecodeTcp, BytesWords, WordBytes;
    DecodeWordWrite(start, qty, payload);
    DecodeWordRead(0x03, start, qty);
    OverwriteReads(t.holding, start, BytesWords(payload));
    BytesRoundTrip(payload);
  }

  // ---------------------------------------------------------------------------
  // A multiple write is a run of single writes
  // ---------------------------------------------------------------------------

  function CoilWrites(start: nat, bits: seq<bool>): (pdus: seq<seq<byte>>)
    requires start + |bits| <= SIZE
    ensures |pdus| == |bits|
  {
    seq(|bits|, i requires 0 <= i < |bits| => ShortRequest(0x05, start + i, if bits[i] then COIL_ON else COIL_OFF))
  }

  function WordWrites(start: nat, words: seq<word>): (pdus: seq<seq<byte>>)
    requires start + |words| <= SIZE
    ensures |pdus| == |words|
  {
    seq(|words|, i requires 0 <= i < |words| => ShortRequest(0x06, start + i, words[i]))
  }

  lemma {:induction false} CoilWritesStore(t: Store, start: nat, bits: seq<bool>)
    requires start + |bits| <= SIZE
    ensures TcpStore(t, CoilWrites(start, bits)) == t.(coils := Overwrite(t.coils, start, bits))
    decreases bits
  {
    hide Overwrite, ShortRequest, HandleTcp;
    if bits == [] {
      OverwriteSame(t.coils, start, 0);
      assert t.coils[start..start] == [];
    } else {
      var pdus := CoilWrites(start, bits);
      assert pdus[1..] == CoilWrites(start + 1, bits[1..]);
      OneCoilStore(t, start, bits[0]);
      OverwriteAppend(t.coils, start, [bits[0]], bits[1..]);
      assert [bits[0]] + bits[1..] == bits;
      CoilWritesStore(HandleTcp(t, pdus[0]).store, start + 1, bits[1..]);
    }
  }

  lemma {:induction false} WordWritesStore(t: Store, start: nat, words: seq<word>)
    requires start + |words| <= SIZE
    ensures TcpStore(t, WordWrites(start, words)) == t.(holding := Overwrite(t.holding, start, words))
    decreases words
  {
    hide Overwrite, ShortRequest, HandleTcp;
    if words == [] {
      OverwriteSame(t.holding, start, 0);
      assert t.holding[start..start] == [];
    } else {
      var pdus := WordWrites(start, words);
      assert pdus[1..] == WordWrites(start + 1, words[1..]);
      OneWordStore(t, start, words[0]);
      OverwriteAppend(t.holding, start, [words[0]], words[1..]);
      assert [words[0]] + words[1..] == words;
      WordWritesStore(HandleTcp(t, pdus[0]).store, start + 1, words[1..]);
    }
  }

  /** A 0x0F request has the effect of one 0x05 request per coil, in order. */
  lemma CoilsAsSingles(t: Store, start: word, qty: word, payload: seq<byte>)
    requires 0 < qty <= 1968 && start + qty <= SIZE && |payload| == OctetsFor(qty)
    ensures |payload| <= 246
    ensures HandleTcp(t, LongRequest(0x0F, start, qty, payload)).store
         == TcpStore(t, CoilWrites(start, Unpack(payload, qty)))
  {
    hide Overwrite, LongRequest, HandleTcp, Unpack, CoilWrites, TcpStore;
    CoilWriteStore(t, start, qty, payload);
    CoilWritesStore(t, start, Unpack(payload, qty));
  }

  /** A 0x10 request has the effect of one 0x06 request per register, in order. */
  lemma WordsAsSingles(t: Store, start: word, qty: word, payload: seq<byte>)
    requires 0 < qty <= 123 && start + qty <= SIZE && |payload| == 2 * qty
    ensures HandleTcp(t, LongRequest(0x10, start, qty, payload)).store
         == TcpStore(t, WordWrites(start, BytesWords(payload)))
  {
    hide Overwrite, LongRequest, HandleTcp, BytesWords, WordWrites, TcpStore;
    WordWriteStore(t, start, qty, payload);
    WordWritesStore(t, start, BytesWords(payload));
  }

  /** Two adjacent register writes are one larger write, while it fits. */
  lemma WordWritesJoin(t: Store, start: word, n: word, m: word, a: seq<byte>, b: seq<byte>)
    requires 0 < n && 0 < m && n + m <= 123 && start + n + m <= SIZE && |a| == 2 * n && |b| == 2 * m
    ensures TcpStore(t, [LongRequest(0x10, start, n, a), LongRequest(0x10, start + n, m, b)])
         == HandleTcp(t, LongRequest(0x10, start, n + m, a + b)).store
  {
    hide Overwrite, LongRequest, HandleTcp, BytesWords, TcpStore;
    WordWriteStore(t, start, n, a);
    WordWriteStore(t.(holding := Overwrite(t.holding, start, BytesWords(a))), start + n, m, b);
    WordWriteStore(t, start, n + m, a + b);
    BytesWordsAppend(a, b);
    OverwriteAppend(t.holding, start, BytesWords(a), BytesWords(b));
    TcpStorePair(t, LongRequest(0x10, start, n, a), LongRequest(0x10, start + n, m, b));
  }

  lemma TcpStorePair(t: Store, p: seq<byte>, q: seq<byte>)
    ensures TcpStore(t, [p, q]) == HandleTcp(HandleTcp(t, p).store, q).store
  {
    hide HandleTcp;
    assert [p, q][1..] == [q] && [q][1..] == [];
    assert TcpStore(HandleTcp(t, p).store, [q]) == HandleTcp(HandleTcp(t, p).store, q).store;
  }

  /** Two adjacent coil writes are one larger write of the joined coil states. */
  lemma CoilWritesJoin(t: Store, start: word, n: word, m: word, a: seq<byte>, b: seq<byte>)
    requires 0 < n && 0 < m && n + m <= 1968 && start + n + m <= SIZE
    requires |a| == OctetsFor(n) && |b| == OctetsFor(m)
    ensures |a| <= 246 && |b| <= 246 && OctetsFor(n + m) <= 246
    ensures TcpStore(t, [LongRequest(0x0F, start, n, a), LongRequest(0x0F, start + n, m, b)])
         == HandleTcp(t, LongRequest(0x0F, start, n + m, Pack(Unpack(a, n) + Unpack(b, m)))).store
  {
    hide Overwrite, LongRequest, HandleTcp, Unpack, Pack, TcpStore;
    var bits := Unpack(a, n) + Unpack(b, m);
    CoilWriteStore(t, start, n, a);
    CoilWriteStore(t.(coils := Overwrite(t.coils, start, Unpack(a, n))), start + n, m, b);
    CoilWriteStore(t, start, n + m, Pack(bits));
    UnpackPack(bits);
    OverwriteAppend(t.coils, start, Unpack(a, n), Unpack(b, m));
    TcpStorePair(t, LongRequest(0x0F, start, n, a), LongRequest(0x0F, start + n, m, b));
  }

  // ---------------------------------------------------------------------------
  // The two engines
  // ---------------------------------------------------------------------------

  /** A PDU whose length is the one the serial stream reader takes from it. */
  predicate Framed(pdu: seq<byte>) {
    || (|pdu| == 5 && 0x01 <= pdu[0] <= 0x06)
    || (|pdu| >= 6 && (pdu[0] == 0x0F || pdu[0] == 0x10) && |pdu| == 6 + ByteCount(pdu))
  }

  /** An otherwise acceptable 0x0F request that declares too few or too many octets. */
  predicate LooseCoilWrite(pdu: seq<byte>) {
    Framed(pdu) && pdu[0] == 0x0F && 0 < Count(pdu) <= 1968 && Start(pdu) + Count(pdu) <= SIZE && ByteCount(pdu) != OctetsFor(Count(pdu))
  }

  /** A 0x0F request on which `handleRTUPDU` panics. */
  predicate ShortCoilWrite(pdu: seq<byte>) {
    LooseCoilWrite(pdu) && ByteCount(pdu) < OctetsFor(Count(pdu))
  }

  /** Same tables, and the same reply except perhaps for an exception's code. */
  predicate SameEffect(r: Served, h: Handled) {
    && r.outcome.Replied?
    && r.store == h.store
    && (r.outcome.reply == h.reply
        || (|r.outcome.reply| == |h.reply| == 2 && r.outcome.reply[0] == h.reply[0] && IsException(h.reply)))
  }

  /** `handleRTUPDU` never returns an error on a framed PDU, changes nothing when it returns one,
      and panics exactly on short coil writes. */
  lemma RtuOutcome(t: Store, pdu: seq<byte>)
    ensures Framed(pdu) ==> !HandleRtu(t, pdu).outcome.Failed?
    ensures HandleRtu(t, pdu).outcome.Failed? ==> HandleRtu(t, pdu).store == t
    ensures HandleRtu(t, pdu).outcome.Panicked? <==> ShortCoilWrite(pdu)
  {
    hide Reply, Apply, WordOf, Unpack, BytesWords;
  }

  /** Where the engines part: the TCP engine refuses, the serial one stores the coils it has
      octets for and answers unless it ran out of them. */
  lemma LooseCoilWrites(t: Store, pdu: seq<byte>)
    requires LooseCoilWrite(pdu)
    ensures HandleTcp(t, pdu) == Handled(Exception(0x0F, ILLEGAL_VALUE), t)
    ensures var n := if ShortCoilWrite(pdu) then 8 * ByteCount(pdu) else Count(pdu);
            && n <= 8 * |pdu[6..]| && Start(pdu) + n <= SIZE
            && HandleRtu(t, pdu)
               == Served(if ShortCoilWrite(pdu) then Panicked else Replied(pdu[..5]),
                         t.(coils := Overwrite(t.coils, Start(pdu), Unpack(pdu[6..], n))))
  {
    hide Overwrite, WordOf, Unpack;
    OctetsEnough(Count(pdu));
  }

  /** Both kinds exist: nine coils with one octet, and one coil with two. */
  lemma LooseCoilWritesExist()
    ensures Framed(LongRequest(0x0F, 0, 9, [0xFF])) && ShortCoilWrite(LongRequest(0x0F, 0, 9, [0xFF]))
    ensures var pdu := LongRequest(0x0F, 0, 1, [0xFF, 0]); LooseCoilWrite(pdu) && !ShortCoilWrite(pdu)
  {
    hide LongRequest, Start, Count, ByteCount;
    assert OctetsFor(9) == 2 && OctetsFor(1) == 1;
  }

  /** The engines have the same effect except on loose coil writes, and then differ at most in
      reporting a bad value as a bad address. */
  predicate Agreement(t: Store, pdu: seq<byte>)
    requires Framed(pdu)
  {
    && (SameEffect(HandleRtu(t, pdu), HandleTcp(t, pdu)) <==> !LooseCoilWrite(pdu))
    && (!LooseCoilWrite(pdu) ==>
          (HandleRtu(t, pdu).outcome.reply == HandleTcp(t, pdu).reply
           <==> HandleTcp(t, pdu).reply != Exception(pdu[0], ILLEGAL_VALUE)))
  }

  lemma ShortsAgree(t: Store, pdu: seq<byte>)
    requires Framed(pdu) && pdu[0] <= 0x06
    ensures Agreement(t, pdu)
  {
    hide Pack, WordBytes, Overwrite, WordOf, Unpack, BytesWords;
  }

  lemma CoilWritesAgree(t: Store, pdu: seq<byte>)
    requires Framed(pdu) && pdu[0] == 0x0F
    ensures Agreement(t, pdu)
  {
    hide Pack, WordBytes, Overwrite, WordOf, Unpack, BytesWords;
    OctetsEnough(Count(pdu));
  }

  lemma WordWritesAgree(t: Store, pdu: seq<byte>)
    requires Framed(pdu) && pdu[0] == 0x10
    ensures Agreement(t, pdu)
  {
    hide Pack, WordBytes, Overwrite, WordOf, Unpack, BytesWords;
  }

  /** Where the engines agree on framed PDUs. */
  lemma EnginesAgree(t: Store, pdu: seq<byte>)
    requires Framed(pdu)
    ensures Agreement(t, pdu)
  {
    hide Agreement;
    if pdu[0] == 0x0F {
      CoilWritesAgree(t, pdu);
    } else if pdu[0] == 0x10 {
      WordWritesAgree(t, pdu);
    } else {
      ShortsAgree(t, pdu);
    }
  }
}
