/** What a request does to the four tables, as a function of the tables and the PDU.

    The program has two engines: `handlePDU` of the TCP server, and `handleRTUPDU`
    of the serial stores.  They decode and check requests differently (`DecodeTcp`,
    `DecodeRtu`) and share what an accepted request means (`Execute`). */
module Engine {
  import opened Bytes
  import opened Packing

  const SIZE: nat := 0x1_0000

  datatype Image = Image(coils: seq<bool>, discretes: seq<bool>, holding: seq<word>, inputs: seq<word>)

  type Store = t: Image |
      |t.coils| == SIZE && |t.discretes| == SIZE && |t.holding| == SIZE && |t.inputs| == SIZE
    witness Image(seq(SIZE, _ => false), seq(SIZE, _ => false), seq(SIZE, _ => 0), seq(SIZE, _ => 0))

  /** `s` with `vs` written from position `at` on. */
  function Overwrite<T>(s: seq<T>, at: nat, vs: seq<T>): (r: seq<T>)
    requires at + |vs| <= |s|
    ensures |r| == |s|
    ensures forall i :: 0 <= i < |s| ==> r[i] == if at <= i < at + |vs| then vs[i - at] else s[i]
  {
    s[..at] + vs + s[at + |vs|..]
  }

  /** A request that passed, or failed, the checks of an engine. */
  datatype Command =
    | GetBits(fn: byte, start: nat, qty: nat)
    | GetWords(fn: byte, start: nat, qty: nat)
    | PutBits(start: nat, bits: seq<bool>, echo: seq<byte>)
    | PutWords(start: nat, words: seq<word>, echo: seq<byte>)
    | Refuse(reply: seq<byte>)
    | Abort(start: nat, bits: seq<bool>)
  {
    predicate InRange() {
      match this
      case GetBits(fn, start, qty) => (fn == 0x01 || fn == 0x02) && 0 < qty <= 2000 && start + qty <= SIZE
      case GetWords(fn, start, qty) => (fn == 0x03 || fn == 0x04) && 0 < qty <= 125 && start + qty <= SIZE
      case PutBits(start, bits, echo) => 0 < |bits| <= 1968 && start + |bits| <= SIZE && |echo| == 5
      case PutWords(start, words, echo) => 0 < |words| <= 123 && start + |words| <= SIZE && |echo| == 5
      case Refuse(reply) => |reply| == 2 && reply[0] >= 0x80
      case Abort(start, bits) => |bits| < 1968 && start + |bits| <= SIZE
    }
  }

  type Checked = c: Command | c.InRange() witness Refuse([0x80, 1])

  // ---------------------------------------------------------------------------
  // Meaning of a checked request
  // ---------------------------------------------------------------------------

  function BitTable(t: Store, fn: byte): (s: seq<bool>)
    ensures |s| == SIZE
  {
    if fn == 0x01 then t.coils else t.discretes
  }

  function WordTable(t: Store, fn: byte): (s: seq<word>)
    ensures |s| == SIZE
  {
    if fn == 0x03 then t.holding else t.inputs
  }

  function BitsReply(fn: byte, bits: seq<bool>): seq<byte>
    requires |bits| <= 2000
  {
    [fn, OctetsFor(|bits|)] + Pack(bits)
  }

  function WordsReply(fn: byte, words: seq<word>): seq<byte>
    requires |words| <= 125
  {
    [fn, 2 * |words|] + WordBytes(words)
  }

  function Reply(c: Checked, t: Store): seq<byte> {
    match c
    case GetBits(fn, start, qty) => BitsReply(fn, BitTable(t, fn)[start..start + qty])
    case GetWords(fn, start, qty) => WordsReply(fn, WordTable(t, fn)[start..start + qty])
    case PutBits(_, _, echo) => echo
    case PutWords(_, _, echo) => echo
    case Refuse(reply) => reply
    case Abort(_, _) => []
  }

  function Apply(c: Checked, t: Store): Store {
    match c
    case PutBits(start, bits, _) => t.(coils := Overwrite(t.coils, start, bits))
    case PutWords(start, words, _) => t.(holding := Overwrite(t.holding, start, words))
    case Abort(start, bits) => t.(coils := Overwrite(t.coils, start, bits))
    case _ => t
  }

  // ---------------------------------------------------------------------------
  // Decoding
  // ---------------------------------------------------------------------------

  /** The first word of a request: a start address or the address to write. */
  function Start(pdu: seq<byte>): word
    requires |pdu| >= 5
  {
    WordOf(pdu[1], pdu[2])
  }

  /** The second word of a request: a quantity or the value to write. */
  function Count(pdu: seq<byte>): word
    requires |pdu| >= 5
  {
    WordOf(pdu[3], pdu[4])
  }

  /** The length a write request declares for its payload. */
  function ByteCount(pdu: seq<byte>): nat
    requires |pdu| >= 6
  {
    pdu[5]
  }

  function ErrorCode(fn: byte): byte {
    if fn < 0x80 then fn + 0x80 else fn
  }

  function Exception(fn: byte, code: byte): seq<byte> {
    [ErrorCode(fn), code]
  }

  const ILLEGAL_FUNCTION: byte := 0x01
  const ILLEGAL_ADDRESS: byte := 0x02
  const ILLEGAL_VALUE: byte := 0x03

  const COIL_ON: word := 0xFF00
  const COIL_OFF: word := 0x0000

  /** The checks of `handlePDU` in internal/modbus/server.go, in its order. */
  function DecodeTcp(pdu: seq<byte>): Checked {
    if pdu == [] then Refuse(Exception(0, ILLEGAL_FUNCTION))
    else
      var fn := pdu[0];
      if fn == 0x01 || fn == 0x02 || fn == 0x03 || fn == 0x04 then
        if |pdu| < 5 then Refuse(Exception(fn, ILLEGAL_VALUE))
        else
          var most := if fn == 0x01 || fn == 0x02 then 2000 else 125;
          if Count(pdu) == 0 || Count(pdu) > most then Refuse(Exception(fn, ILLEGAL_VALUE))
          else if Start(pdu) + Count(pdu) > SIZE then Refuse(Exception(fn, ILLEGAL_ADDRESS))
          else if fn == 0x01 || fn == 0x02 then GetBits(fn, Start(pdu), Count(pdu))
          else GetWords(fn, Start(pdu), Count(pdu))
      else if fn == 0x05 then
        if |pdu| != 5 then Refuse(Exception(fn, ILLEGAL_VALUE))
        else if Count(pdu) != COIL_ON && Count(pdu) != COIL_OFF then Refuse(Exception(fn, ILLEGAL_VALUE))
        else PutBits(Start(pdu), [Count(pdu) == COIL_ON], pdu)
      else if fn == 0x06 then
        if |pdu| != 5 then Refuse(Exception(fn, ILLEGAL_VALUE))
        else PutWords(Start(pdu), [Count(pdu)], pdu)
      else if fn == 0x0F then
        if |pdu| < 6 then Refuse(Exception(fn, ILLEGAL_VALUE))
        else if Count(pdu) == 0 || Count(pdu) > 1968 then Refuse(Exception(fn, ILLEGAL_VALUE))
        else if ByteCount(pdu) != OctetsFor(Count(pdu)) then Refuse(Exception(fn, ILLEGAL_VALUE))
        else if |pdu| != 6 + ByteCount(pdu) then Refuse(Exception(fn, ILLEGAL_VALUE))
        else if Start(pdu) + Count(pdu) > SIZE then Refuse(Exception(fn, ILLEGAL_ADDRESS))
        else PutBits(Start(pdu), Unpack(pdu[6..], Count(pdu)), pdu[..5])
      else if fn == 0x10 then
        if |pdu| < 6 then Refuse(Exception(fn, ILLEGAL_VALUE))
        else if Count(pdu) == 0 || Count(pdu) > 123 then Refuse(Exception(fn, ILLEGAL_VALUE))
        else if ByteCount(pdu) != 2 * Count(pdu) then Refuse(Exception(fn, ILLEGAL_VALUE))
        else if |pdu| != 6 + ByteCount(pdu) then Refuse(Exception(fn, ILLEGAL_VALUE))
        else if Start(pdu) + Count(pdu) > SIZE then Refuse(Exception(fn, ILLEGAL_ADDRESS))
        else PutWords(Start(pdu), BytesWords(pdu[6..]), pdu[..5])
      else Refuse(Exception(fn, ILLEGAL_FUNCTION))
  }

  /** Go's `(value, error)` pair where the error is only tested for presence. */
  datatype Decoded = Accepted(command: Checked) | Malformed

  /** The checks of `handleRTUPDU` in cmd/mocktty/main.go and cmd/server/main.go.
      A 0x0F request whose payload is shorter than its quantity is not checked: the
      program stores the coils it has octets for and then indexes past the payload. */
  function DecodeRtu(pdu: seq<byte>): Decoded {
    if pdu == [] then Malformed
    else
      var fn := pdu[0];
      if fn == 0x01 || fn == 0x02 || fn == 0x03 || fn == 0x04 then
        if |pdu| < 5 then Malformed
        else
          var most := if fn == 0x01 || fn == 0x02 then 2000 else 125;
          if Count(pdu) == 0 || Count(pdu) > most || Start(pdu) + Count(pdu) > SIZE then Accepted(Refuse(Exception(fn, ILLEGAL_ADDRESS)))
          else if fn == 0x01 || fn == 0x02 then Accepted(GetBits(fn, Start(pdu), Count(pdu)))
          else Accepted(GetWords(fn, Start(pdu), Count(pdu)))
      else if fn == 0x05 then
        if |pdu| < 5 then Malformed
        else if Count(pdu) != COIL_ON && Count(pdu) != COIL_OFF then Accepted(Refuse(Exception(fn, ILLEGAL_ADDRESS)))
        else Accepted(PutBits(Start(pdu), [Count(pdu) == COIL_ON], pdu[..5]))
      else if fn == 0x06 then
        if |pdu| < 5 then Malformed
        else Accepted(PutWords(Start(pdu), [Count(pdu)], pdu[..5]))
      else if fn == 0x0F then
        if |pdu| < 6 || |pdu| != 6 + ByteCount(pdu) then Malformed
        else if Count(pdu) == 0 || Count(pdu) > 1968 || Start(pdu) + Count(pdu) > SIZE then Accepted(Refuse(Exception(fn, ILLEGAL_ADDRESS)))
        else if Count(pdu) > 8 * ByteCount(pdu) then Accepted(Abort(Start(pdu), Unpack(pdu[6..], 8 * ByteCount(pdu))))
        else Accepted(PutBits(Start(pdu), Unpack(pdu[6..], Count(pdu)), pdu[..5]))
      else if fn == 0x10 then
        if |pdu| < 6 || |pdu| != 6 + ByteCount(pdu) then Malformed
        else if Count(pdu) == 0 || Count(pdu) > 123 || ByteCount(pdu) != 2 * Count(pdu) || Start(pdu) + Count(pdu) > SIZE then
          Accepted(Refuse(Exception(fn, ILLEGAL_ADDRESS)))
        else Accepted(PutWords(Start(pdu), BytesWords(pdu[6..]), pdu[..5]))
      else Accepted(Refuse(Exception(fn, ILLEGAL_FUNCTION)))
  }

  // ---------------------------------------------------------------------------
  // The two engines
  // ---------------------------------------------------------------------------

  datatype Handled = Handled(reply: seq<byte>, store: Store)

  function HandleTcp(t: Store, pdu: seq<byte>): Handled {
    Handled(Reply(DecodeTcp(pdu), t), Apply(DecodeTcp(pdu), t))
  }

  /** How a call of `handleRTUPDU` ends: a reply, a Go error, or a Go panic. */
  datatype Outcome = Replied(reply: seq<byte>) | Failed | Panicked

  datatype Served = Served(outcome: Outcome, store: Store)

  function HandleRtu(t: Store, pdu: seq<byte>): Served {
    match DecodeRtu(pdu)
    case Malformed => Served(Failed, t)
    case Accepted(c) => Served(if c.Abort? then Panicked else Replied(Reply(c, t)), Apply(c, t))
  }
}
