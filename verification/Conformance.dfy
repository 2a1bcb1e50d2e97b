/** The protocol on the octets alone: what every request does, and what is sent for it, in numbers
    and tables and in no other terms of this project. */
module Conformance {
  import opened Bytes
  import opened Packing
  import opened Engine
  import opened EngineLaws
  import Rtu = RtuStream
  import Tcp = TcpStream

  // ---------------------------------------------------------------------------
  // Requests
  // ---------------------------------------------------------------------------

  /** The function codes of sections 6.1 to 6.6, 6.11 and 6.12. */
  predicate Supported(fn: nat) {
    fn == 1 || fn == 2 || fn == 3 || fn == 4 || fn == 5 || fn == 6 || fn == 15 || fn == 16
  }

  /** The TCP server's checks of length, quantity, value and octet count. */
  predicate Shaped(pdu: seq<byte>) {
    && |pdu| >= 5
    && (var n: int := 256 * (pdu[3] as int) + pdu[4];
        || ((pdu[0] == 1 || pdu[0] == 2) && 1 <= n <= 2000)
        || ((pdu[0] == 3 || pdu[0] == 4) && 1 <= n <= 125)
        || (pdu[0] == 5 && |pdu| == 5 && (pdu[3] == 0 || pdu[3] == 255) && pdu[4] == 0)
        || (pdu[0] == 6 && |pdu| == 5)
        || (pdu[0] == 15 && |pdu| >= 6 && 1 <= n <= 1968 && pdu[5] == (n + 7) / 8 && |pdu| - 6 == pdu[5])
        || (pdu[0] == 16 && |pdu| >= 6 && 1 <= n <= 123 && pdu[5] == 2 * n && |pdu| - 6 == pdu[5]))
  }

  /** The addressed cells exist. */
  predicate Fits(pdu: seq<byte>)
    requires |pdu| >= 5
  {
    pdu[0] == 5 || pdu[0] == 6 || 256 * (pdu[1] as int) + pdu[2] + (256 * (pdu[3] as int) + pdu[4]) <= 65536
  }

  // ---------------------------------------------------------------------------
  // Normal replies
  // ---------------------------------------------------------------------------

  /** Functions 1 and 2: the number of octets, then the coils, first coil in the lowest bit. */
  predicate BitsRead(t: Store, pdu: seq<byte>, r: seq<byte>)
    requires |pdu| >= 5
  {
    var a: int, n: int := 256 * (pdu[1] as int) + pdu[2], 256 * (pdu[3] as int) + pdu[4];
    && a + n <= 65536
    && |r| == 2 + (n + 7) / 8
    && r[0] == pdu[0] && r[1] == (n + 7) / 8
    && (forall i | 0 <= i < 8 * ((n + 7) / 8) ::
          BitSet(r[2 + i / 8], i % 8) <==> i < n && (if pdu[0] == 1 then t.coils else t.discretes)[a + i])
  }

  /** Functions 3 and 4: the number of octets, then the registers, high octet first. */
  predicate WordsRead(t: Store, pdu: seq<byte>, r: seq<byte>)
    requires |pdu| >= 5
  {
    var a: int, n: int := 256 * (pdu[1] as int) + pdu[2], 256 * (pdu[3] as int) + pdu[4];
    && a + n <= 65536
    && |r| == 2 + 2 * n
    && r[0] == pdu[0] && r[1] == 2 * n
    && (forall i | 0 <= i < n :: 256 * (r[2 * i + 2] as int) + r[2 * i + 3] == (if pdu[0] == 3 then t.holding else t.inputs)[a + i])
  }

  /** Functions 5 and 6: one cell. */
  predicate OneWritten(t: Store, pdu: seq<byte>, t': Store)
    requires |pdu| >= 5
  {
    var a: int := 256 * (pdu[1] as int) + pdu[2];
    if pdu[0] == 5 then t' == t.(coils := t.coils[a := pdu[3] == 255])
    else t' == t.(holding := t.holding[a := 256 * (pdu[3] as int) + pdu[4]])
  }

  /** Function 15: the coils from the payload, first coil in the lowest bit of the first octet. */
  predicate CoilsWritten(t: Store, pdu: seq<byte>, t': Store)
    requires |pdu| >= 6
  {
    var a: int, n: int := 256 * (pdu[1] as int) + pdu[2], 256 * (pdu[3] as int) + pdu[4];
    && n <= 8 * (|pdu| - 6)
    && t' == t.(coils := t'.coils)
    && (forall c | 0 <= c < 65536 ::
          t'.coils[c] <==> if a <= c < a + n then BitSet(pdu[6 + (c - a) / 8], (c - a) % 8) else t.coils[c])
  }

  /** Function 16: the registers from the payload, high octet first. */
  predicate RegistersWritten(t: Store, pdu: seq<byte>, t': Store)
    requires |pdu| >= 6
  {
    var a: int, n: int := 256 * (pdu[1] as int) + pdu[2], 256 * (pdu[3] as int) + pdu[4];
    && 2 * n <= |pdu| - 6
    && t' == t.(holding := t'.holding)
    && (forall c | 0 <= c < 65536 ::
          t'.holding[c] == if a <= c < a + n then 256 * (pdu[2 * (c - a) + 6] as int) + pdu[2 * (c - a) + 7] else t.holding[c])
  }

  predicate Served(t: Store, pdu: seq<byte>, r: seq<byte>, t': Store)
    requires |pdu| >= 5
  {
    if pdu[0] == 1 || pdu[0] == 2 then BitsRead(t, pdu, r) && t' == t
    else if pdu[0] == 3 || pdu[0] == 4 then WordsRead(t, pdu, r) && t' == t
    else
      && r == [pdu[0], pdu[1], pdu[2], pdu[3], pdu[4]]
      && (if pdu[0] == 5 || pdu[0] == 6 then OneWritten(t, pdu, t')
          else if pdu[0] == 15 then |pdu| >= 6 && CoilsWritten(t, pdu, t')
          else pdu[0] == 16 && |pdu| >= 6 && RegistersWritten(t, pdu, t'))
  }

  lemma BitsReadOut(t: Store, pdu: seq<byte>, r: seq<byte>)
    requires |pdu| >= 5 && (pdu[0] == 1 || pdu[0] == 2)
    requires ReadOut(t, pdu, r) && r[0] == pdu[0] && r[1] == |r| - 2
    ensures BitsRead(t, pdu, r)
  {
    hide Bit, BitSet;
    var a: int, n: int := 256 * (pdu[1] as int) + pdu[2], 256 * (pdu[3] as int) + pdu[4];
    assert Start(pdu) == a && Count(pdu) == n && OctetsFor(n) == (n + 7) / 8;
    var data := r[2..];
    forall i | 0 <= i < 8 * ((n + 7) / 8)
      ensures BitSet(r[2 + i / 8], i % 8) <==> i < n && (if pdu[0] == 1 then t.coils else t.discretes)[a + i]
    {
      assert BitOf(data, i) <==> i < n && BitTable(t, pdu[0])[a + i];
      assert data[i / 8] == r[2 + i / 8];
      BitInNumbers(r[2 + i / 8], i % 8);
    }
  }

  lemma WordsReadOut(t: Store, pdu: seq<byte>, r: seq<byte>)
    requires |pdu| >= 5 && (pdu[0] == 3 || pdu[0] == 4)
    requires ReadOut(t, pdu, r) && r[0] == pdu[0] && r[1] == |r| - 2
    ensures WordsRead(t, pdu, r)
  {
  }

  lemma OneWrittenIs(t: Store, pdu: seq<byte>, t': Store)
    requires Written(t, t', pdu) && (pdu[0] == 5 || pdu[0] == 6)
    requires pdu[0] == 5 ==> (pdu[3] == 0 || pdu[3] == 255) && pdu[4] == 0
    ensures OneWritten(t, pdu, t')
  {
    var a: int := 256 * (pdu[1] as int) + pdu[2];
    if pdu[0] == 5 {
      assert t'.coils == t.coils[a := pdu[3] == 255];
    } else {
      assert t'.holding == t.holding[a := 256 * (pdu[3] as int) + pdu[4]];
    }
  }

  lemma CoilsWrittenAre(t: Store, pdu: seq<byte>, t': Store)
    requires Written(t, t', pdu) && pdu[0] == 15
    ensures CoilsWritten(t, pdu, t')
  {
    hide Bit, BitSet;
    var a: int, n: int := 256 * (pdu[1] as int) + pdu[2], 256 * (pdu[3] as int) + pdu[4];
    assert Start(pdu) == a && Count(pdu) == n;
    forall c | 0 <= c < 65536
      ensures t'.coils[c] <==> if a <= c < a + n then BitSet(pdu[6 + (c - a) / 8], (c - a) % 8) else t.coils[c]
    {
      if a <= c < a + n {
        assert t'.coils[c] == BitOf(pdu[6..], c - a);
        assert pdu[6..][(c - a) / 8] == pdu[6 + (c - a) / 8];
        BitInNumbers(pdu[6 + (c - a) / 8], (c - a) % 8);
      }
    }
  }

  lemma RegistersWrittenAre(t: Store, pdu: seq<byte>, t': Store)
    requires Written(t, t', pdu) && pdu[0] == 16
    ensures RegistersWritten(t, pdu, t')
  {
  }

  lemma FirstFive(pdu: seq<byte>)
    requires |pdu| >= 5
    ensures pdu[..5] == [pdu[0], pdu[1], pdu[2], pdu[3], pdu[4]]
  {
  }

  /** A lawful normal reply, on the octets. */
  lemma LawfulServes(t: Store, pdu: seq<byte>, r: seq<byte>, t': Store)
    requires Lawful(t, pdu, r, t') && !IsException(r) && |pdu| >= 5
    requires pdu[0] == 5 ==> (pdu[3] == 0 || pdu[3] == 255) && pdu[4] == 0
    ensures Served(t, pdu, r, t')
  {
    hide ReadOut, Written, BitsRead, WordsRead, OneWritten, CoilsWritten, RegistersWritten;
    FirstFive(pdu);
    if pdu[0] == 1 || pdu[0] == 2 {
      BitsReadOut(t, pdu, r);
    } else if pdu[0] == 3 || pdu[0] == 4 {
      WordsReadOut(t, pdu, r);
    } else if pdu[0] == 5 || pdu[0] == 6 {
      OneWrittenIs(t, pdu, t');
    } else if pdu[0] == 15 {
      Sized(t, pdu, t');
      CoilsWrittenAre(t, pdu, t');
    } else {
      Sized(t, pdu, t');
      RegistersWrittenAre(t, pdu, t');
    }
  }

  lemma Sized(t: Store, pdu: seq<byte>, t': Store)
    requires Written(t, t', pdu) && (pdu[0] == 15 || pdu[0] == 16)
    ensures |pdu| >= 6
  {
  }

  // ---------------------------------------------------------------------------
  // The two engines
  // ---------------------------------------------------------------------------

  lemma ShapedIs(pdu: seq<byte>)
    ensures WellFormed(pdu) <==> Shaped(pdu)
    ensures Acceptable(pdu) <==> Shaped(pdu) && Fits(pdu)
  {
  }

  /** The TCP server on every PDU: exception code 1 for an unknown function, 3 for a malformed request,
      2 for cells that do not exist, none of which change anything; else the tables say the reply. */
  lemma TcpOnOctets(t: Store, pdu: seq<byte>)
    ensures var h := HandleTcp(t, pdu);
            var fn := if pdu == [] then 0 else pdu[0];
            var refused := if fn < 128 then fn + 128 else fn;
            if !Supported(fn) then h == Handled([refused, 1], t)
            else if !Shaped(pdu) then h == Handled([refused, 3], t)
            else if !Fits(pdu) then h == Handled([refused, 2], t)
            else Served(t, pdu, h.reply, h.store)
  {
    hide HandleTcp, Shaped, WellFormed, Acceptable, Fits, Served;
    TcpAccepts(t, pdu);
    TcpLawful(t, pdu);
    ShapedIs(pdu);
    var h := HandleTcp(t, pdu);
    if Acceptable(pdu) {
      ShapedFive(pdu);
      hide Lawful;
      LawfulServes(t, pdu, h.reply, h.store);
    } else {
      RefusedKeeps(t, pdu, h.reply, h.store);
    }
  }

  lemma ShapedFive(pdu: seq<byte>)
    requires Shaped(pdu)
    ensures |pdu| >= 5 && Supported(pdu[0])
    ensures pdu[0] == 5 ==> (pdu[3] == 0 || pdu[3] == 255) && pdu[4] == 0
  {
  }

  lemma RefusedKeeps(t: Store, pdu: seq<byte>, r: seq<byte>, t': Store)
    requires Lawful(t, pdu, r, t') && r != [] && IsException(r)
    ensures t' == t
  {
  }

  /** A PDU as the serial stream reader delimits it. */
  predicate Delimited(pdu: seq<byte>) {
    || (|pdu| == 5 && (pdu[0] == 1 || pdu[0] == 2 || pdu[0] == 3 || pdu[0] == 4 || pdu[0] == 5 || pdu[0] == 6))
    || (|pdu| >= 6 && (pdu[0] == 15 || pdu[0] == 16) && |pdu| - 6 == pdu[5])
  }

  /** The serial servers' checks; the octet count of function 15 is not among them. */
  predicate Plausible(pdu: seq<byte>)
    requires Delimited(pdu)
  {
    var n: int := 256 * (pdu[3] as int) + pdu[4];
    if pdu[0] == 1 || pdu[0] == 2 then 1 <= n <= 2000
    else if pdu[0] == 3 || pdu[0] == 4 then 1 <= n <= 125
    else if pdu[0] == 5 then (pdu[3] == 0 || pdu[3] == 255) && pdu[4] == 0
    else if pdu[0] == 6 then true
    else if pdu[0] == 15 then 1 <= n <= 1968
    else 1 <= n <= 123 && pdu[5] == 2 * n
  }

  lemma ShortRefused(pdu: seq<byte>)
    requires Delimited(pdu) && pdu[0] <= 6 && !(Plausible(pdu) && Fits(pdu))
    ensures DecodeRtu(pdu) == Accepted(Refuse([pdu[0] + 128, 2]))
  {
  }

  lemma CoilsRefused(pdu: seq<byte>)
    requires Delimited(pdu) && pdu[0] == 15 && !(Plausible(pdu) && Fits(pdu))
    ensures DecodeRtu(pdu) == Accepted(Refuse([143, 2]))
  {
    hide Unpack;
  }

  lemma RegistersRefused(pdu: seq<byte>)
    requires Delimited(pdu) && pdu[0] == 16 && !(Plausible(pdu) && Fits(pdu))
    ensures DecodeRtu(pdu) == Accepted(Refuse([144, 2]))
  {
    hide BytesWords;
  }

  lemma RtuRefuses(t: Store, pdu: seq<byte>)
    requires Delimited(pdu) && !(Plausible(pdu) && Fits(pdu))
    ensures HandleRtu(t, pdu) == Engine.Served(Replied([pdu[0] + 128, 2]), t)
  {
    hide DecodeRtu, Plausible, Fits;
    if pdu[0] == 15 {
      CoilsRefused(pdu);
    } else if pdu[0] == 16 {
      RegistersRefused(pdu);
    } else {
      ShortRefused(pdu);
    }
  }

  lemma RtuServes(t: Store, pdu: seq<byte>)
    requires Delimited(pdu) && Plausible(pdu) && Fits(pdu)
    requires pdu[0] == 15 ==> 256 * (pdu[3] as int) + pdu[4] <= 8 * (pdu[5] as int)
    ensures HandleRtu(t, pdu).outcome.Replied?
    ensures HandleRtu(t, pdu).outcome.reply != [] && !IsException(HandleRtu(t, pdu).outcome.reply)
  {
    hide HandleRtu, HandleTcp, Unpack;
    DelimitedIs(pdu);
    if LooseCoilWrite(pdu) {
      LooseCoilWrites(t, pdu);
    } else {
      EnginesAgree(t, pdu);
      TcpAccepts(t, pdu);
      hide Fits, Plausible, Shaped;
      PlausibleShaped(pdu);
      ShapedIs(pdu);
    }
  }

  lemma DelimitedIs(pdu: seq<byte>)
    ensures Framed(pdu) <==> Delimited(pdu)
  {
  }

  lemma PlausibleShaped(pdu: seq<byte>)
    requires Delimited(pdu) && Plausible(pdu) && Fits(pdu) && !LooseCoilWrite(pdu)
    ensures Shaped(pdu)
  {
  }

  /** The serial servers on every PDU that the stream reader can hand over: exception code 2 for
      whatever is refused; a panic for function 15 with too few octets; else the tables say the reply. */
  lemma RtuOnOctets(t: Store, pdu: seq<byte>)
    requires Delimited(pdu)
    ensures var h := HandleRtu(t, pdu);
            if !Plausible(pdu) || !Fits(pdu) then h == Engine.Served(Replied([pdu[0] + 128, 2]), t)
            else if pdu[0] == 15 && 8 * (pdu[5] as int) < 256 * (pdu[3] as int) + pdu[4] then h.outcome == Panicked
            else h.outcome.Replied? && Served(t, pdu, h.outcome.reply, h.store)
  {
    hide HandleRtu, Fits, Served, WordOf;
    if !Plausible(pdu) || !Fits(pdu) {
      RtuRefuses(t, pdu);
    } else if pdu[0] == 15 && 8 * (pdu[5] as int) < 256 * (pdu[3] as int) + pdu[4] {
      ShortIs(pdu);
      RtuOutcome(t, pdu);
    } else {
      RtuServes(t, pdu);
      RtuLawful(t, pdu);
      hide Lawful, Plausible;
      if pdu[0] == 5 {
        PlausibleCoil(pdu);
      }
      LawfulServes(t, pdu, HandleRtu(t, pdu).outcome.reply, HandleRtu(t, pdu).store);
    }
  }

  lemma PlausibleCoil(pdu: seq<byte>)
    requires Delimited(pdu) && Plausible(pdu) && pdu[0] == 5
    ensures (pdu[3] == 0 || pdu[3] == 255) && pdu[4] == 0
  {
  }

  lemma ShortIs(pdu: seq<byte>)
    requires Delimited(pdu) && Plausible(pdu) && Fits(pdu) && pdu[0] == 15 && 8 * (pdu[5] as int) < 256 * (pdu[3] as int) + pdu[4]
    ensures ShortCoilWrite(pdu)
  {
  }
}
