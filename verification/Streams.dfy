/**
 A storage stream that may deliver fewer bytes than asked for, and the read loop that
 turns it into an exact read (default_resharder.py, _read_exact).
 */
module Streams {
  import opened Wrappers

  newtype byte = x: int | 0 <= x < 256

  function Lesser(a: nat, b: nat): nat { if a < b then a else b }

  datatype ReadError = OsError | EofError | SeekError

  /** An open file. How many bytes a read delivers is left to the backend. Unless it is
      reliable, so is whether a read fails or ends early, and unless its seeks are exact,
      where a seek lands. */
  class Stream {
    const content: seq<byte>
    const exactSeek: bool
    const reliable: bool
    var pos: nat

    constructor (content: seq<byte>, exactSeek: bool, reliable: bool)
      ensures this.content == content && this.exactSeek == exactSeek && this.reliable == reliable && pos == 0
    {
      this.content := content;
      this.exactSeek := exactSeek;
      this.reliable := reliable;
      pos := 0;
    }

    method Seek(offset: nat) returns (landed: nat)
      modifies this
      ensures landed == pos && (exactSeek ==> landed == offset)
    {
      landed := *;
      if exactSeek {
        landed := offset;
      }
      pos := landed;
    }

    /** Deliver some bytes from the current position into buf[from..to]. Zero bytes mean
        that no more are coming. */
    method ReadInto(buf: array<byte>, from: nat, to: nat) returns (r: Result<nat, ReadError>)
      requires from <= to <= buf.Length
      modifies this, buf
      ensures r.Err? ==> buf[..] == old(buf[..])
      ensures reliable ==> r.Ok? && (from < to && old(pos) < |content| ==> r.value > 0)
      ensures r.Ok? ==>
        && r.value <= to - from
        && pos == old(pos) + r.value
        && (r.value > 0 ==> pos <= |content|)
        && (forall i :: from <= i < from + r.value ==> buf[i] == content[old(pos) + (i - from)])
        && (forall i :: 0 <= i < buf.Length && !(from <= i < from + r.value) ==> buf[i] == old(buf[i]))
    {
      var fails: bool := *;
      if fails && !reliable {
        return Err(OsError);
      }
      var most := if pos <= |content| then Lesser(to - from, |content| - pos) else 0;
      var n: nat :| n <= most && (reliable && most > 0 ==> n > 0);
      for i := 0 to n
        invariant pos == old(pos)
        invariant forall j :: from <= j < from + i ==> buf[j] == content[pos + (j - from)]
        invariant forall j :: 0 <= j < buf.Length && !(from <= j < from + i) ==> buf[j] == old(buf[j])
      {
        buf[from + i] := content[pos + i];
      }
      pos := pos + n;
      return Ok(n);
    }
  }

  /** Fills the whole buffer from the given offset of the file, or fails; a read that
      ends early is never taken for a complete one. It fails only if the file is too short
      or the backend misbehaves. */
  method ReadExact(stream: Stream, offset: nat, buffer: array<byte>) returns (r: Result<(), ReadError>)
    modifies stream, buffer
    ensures r.Ok? && buffer.Length > 0 ==> offset + buffer.Length <= |stream.content|
    ensures r.Ok? && buffer.Length > 0 ==> buffer[..] == stream.content[offset..offset + buffer.Length]
    ensures stream.exactSeek && stream.reliable && offset + buffer.Length <= |stream.content| ==> r.Ok?
  {
    var landed := stream.Seek(offset);
    if landed != offset {
      return Err(SeekError);
    }
    var bytesRead: nat := 0;
    while bytesRead < buffer.Length
      invariant bytesRead <= buffer.Length
      invariant stream.pos == offset + bytesRead
      invariant bytesRead > 0 ==> stream.pos <= |stream.content|
      invariant forall i :: 0 <= i < bytesRead ==> offset + i < |stream.content| && buffer[i] == stream.content[offset + i]
      decreases buffer.Length - bytesRead
    {
      var count := stream.ReadInto(buffer, bytesRead, buffer.Length);
      if count.Err? {
        return Err(count.error);
      }
      if count.value == 0 {
        return Err(EofError);
      }
      bytesRead := bytesRead + count.value;
    }
    return Ok(());
  }
}
