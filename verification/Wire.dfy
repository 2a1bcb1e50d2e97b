/** One end of a connection: the octets that will arrive, how far they have been read,
    and the octets sent. */
module Wire {
  import opened Bytes

  class Conn {
    const incoming: seq<byte>
    var pos: nat
    var sent: seq<byte>

    ghost predicate Valid()
      reads this
    {
      pos <= |incoming|
    }

    /** The octets still to be read. */
    ghost function Rest(): seq<byte>
      reads this
      requires Valid()
    {
      incoming[pos..]
    }

    constructor (input: seq<byte>)
      ensures Valid() && Rest() == input && sent == []
    {
      incoming, pos, sent := input, 0, [];
    }

    /** Go's `io.ReadFull` into a buffer of length `n`; a short input is used up. */
    method ReadFull(n: nat) returns (ok: bool, data: seq<byte>)
      requires Valid()
      modifies this`pos
      ensures Valid()
      ensures ok <==> n <= |old(Rest())|
      ensures ok ==> data == old(Rest())[..n] && Rest() == old(Rest())[n..]
      ensures !ok ==> Rest() == []
    {
      if n <= |incoming| - pos {
        data := incoming[pos..pos + n];
        pos := pos + n;
        ok := true;
      } else {
        data := incoming[pos..];
        pos := |incoming|;
        ok := false;
      }
    }

    /** Go's `io.ReadFull` into a buffer that already exists. */
    method ReadInto(buffer: array<byte>) returns (ok: bool)
      requires Valid()
      modifies this`pos, buffer
      ensures Valid()
      ensures ok <==> buffer.Length <= |old(Rest())|
      ensures ok ==> buffer[..] == old(Rest())[..buffer.Length] && Rest() == old(Rest())[buffer.Length..]
      ensures !ok ==> Rest() == []
    {
      var data;
      ok, data := ReadFull(buffer.Length);
      ghost var reached := pos;
      for i := 0 to if |data| < buffer.Length then |data| else buffer.Length
        invariant buffer[..i] == data[..i] && pos == reached
      {
        buffer[i] := data[i];
      }
    }

    method Write(bs: seq<byte>)
      modifies this`sent
      ensures sent == old(sent) + bs
    {
      sent := sent + bs;
    }
  }
}
