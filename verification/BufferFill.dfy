/**
 Filling one buffer with a whole file, sequentially or by concurrent ranged reads
 (storage/torch_serialization.py, _fill_serial, _fill_parallel, _python_mmap_from_storage
 and _stream_storage_into_mmap).
 */
module BufferFill {
  import opened Wrappers
  import opened Streams

  /** What a storage backend can be relied on for: that seeks land where asked, and that
      reads neither fail nor end early. */
  datatype Backend = Backend(exactSeek: bool, reliable: bool)

  // ----- the ranges

  datatype Range = Range(offset: nat, length: nat)

  /** What the list comprehension over range(offset, expected, chunk) gives. */
  function RangesFrom(offset: nat, expected: nat, chunk: nat): seq<Range>
    requires chunk > 0
    decreases expected - offset
  {
    if offset >= expected then []
    else [Range(offset, Lesser(chunk, expected - offset))] + RangesFrom(offset + chunk, expected, chunk)
  }

  function End(r: Range): nat { r.offset + r.length }

  function Sum(s: seq<nat>): nat {
    if s == [] then 0 else s[0] + Sum(s[1..])
  }

  function Lengths(ranges: seq<Range>): (r: seq<nat>)
    ensures |r| == |ranges|
  {
    seq(|ranges|, i requires 0 <= i < |ranges| => ranges[i].length)
  }

  predicate InRange(r: Range, p: nat) { r.offset <= p < End(r) }

  ghost predicate Covers(ranges: seq<Range>, p: nat) {
    exists i :: 0 <= i < |ranges| && InRange(ranges[i], p)
  }

  /** The ranges lie one after the other without gap or overlap, from offset to the end. */
  lemma {:induction false} RangesTile(offset: nat, expected: nat, chunk: nat)
    requires chunk > 0
    ensures var ranges := RangesFrom(offset, expected, chunk);
      && (forall i :: 0 <= i < |ranges| ==> 0 < ranges[i].length <= chunk && offset <= ranges[i].offset && End(ranges[i]) <= expected)
      && (forall i, j :: 0 <= i < j < |ranges| ==> End(ranges[i]) <= ranges[j].offset)
      && (forall p: nat :: offset <= p < expected ==> Covers(ranges, p))
      && Sum(Lengths(ranges)) == if offset < expected then expected - offset else 0
    decreases expected - offset
  {
    if offset < expected {
      var rest := RangesFrom(offset + chunk, expected, chunk);
      var ranges := RangesFrom(offset, expected, chunk);
      RangesTile(offset + chunk, expected, chunk);
      assert Lengths(ranges)[1..] == Lengths(rest);
      forall p: nat | offset <= p < expected ensures Covers(ranges, p) {
        if p < offset + chunk {
          assert InRange(ranges[0], p);
        } else {
          assert Covers(rest, p);
          var i :| 0 <= i < |rest| && InRange(rest[i], p);
          assert InRange(ranges[i + 1], p);
        }
      }
    }
  }

  /** Parts no longer than the wholes add up to the same only if none is shorter. */
  lemma {:induction false} SumReachesOnlyIfAll(parts: seq<nat>, wholes: seq<nat>)
    requires |parts| == |wholes| && forall i :: 0 <= i < |parts| ==> parts[i] <= wholes[i]
    ensures Sum(parts) <= Sum(wholes)
    ensures Sum(parts) == Sum(wholes) <==> parts == wholes
  {
    if parts != [] {
      SumReachesOnlyIfAll(parts[1..], wholes[1..]);
      assert parts == [parts[0]] + parts[1..] && wholes == [wholes[0]] + wholes[1..];
    }
  }

  // ----- one sequential stream

  /** The first n bytes of the buffer are those of the file. */
  ghost predicate FilledTo(buf: array<byte>, content: seq<byte>, n: nat)
    reads buf
  {
    n <= buf.Length && n <= |content| && buf[..n] == content[..n]
  }

  method FillSerial(buf: array<byte>, stream: Stream) returns (r: Result<nat, ReadError>)
    requires stream.pos == 0
    modifies buf, stream
    ensures r.Ok? ==> FilledTo(buf, stream.content, r.value)
    ensures stream.reliable ==> r == Ok(Lesser(buf.Length, |stream.content|))
  {
    var pos: nat := 0;
    while pos < buf.Length
      invariant stream.pos == pos && FilledTo(buf, stream.content, pos)
      decreases buf.Length - pos
    {
      var n := stream.ReadInto(buf, pos, buf.Length);
      if n.Err? {
        return Err(n.error);
      }
      if n.value == 0 {
        return Ok(pos);
      }
      pos := pos + n.value;
    }
    return Ok(pos);
  }

  // ----- concurrent ranged reads

  /** One worker's progress on its range. */
  datatype Worker = NotStarted | Reading(got: nat) | Ended(got: nat) | Failed

  function Got(w: Worker): nat {
    match w case NotStarted => 0 case Reading(got) => got case Ended(got) => got case Failed => 0
  }

  predicate Active(w: Worker) { w.NotStarted? || w.Reading? }

  ghost predicate RangeOk(buf: array<byte>, content: seq<byte>, range: Range, w: Worker)
    reads buf
  {
    && Got(w) <= range.length && End(range) <= buf.Length
    && (Got(w) > 0 ==> range.offset + Got(w) <= |content|)
    && forall i :: range.offset <= i < range.offset + Got(w) ==> i < |content| && buf[i] == content[i]
  }

  /** On a sound stream over all of the range, a worker ends only with the range filled. */
  predicate OnlyFilled(range: Range, w: Worker) {
    !w.Failed? && (w.Ended? ==> w.got == range.length)
  }

  /** A worker's next action: seek once, checking where it landed, then read until its
      range is full, the stream ends or a read fails. It writes only inside its range. */
  method WorkerStep(buf: array<byte>, stream: Stream, range: Range, w: Worker) returns (next: Worker)
    requires Active(w) && RangeOk(buf, stream.content, range, w)
    requires w.Reading? ==> stream.pos == range.offset + w.got
    modifies buf, stream
    ensures RangeOk(buf, stream.content, range, next)
    ensures next.Reading? ==> stream.pos == range.offset + next.got
    ensures forall i :: 0 <= i < buf.Length && !InRange(range, i) ==> buf[i] == old(buf[i])
    ensures Remaining(range, next) < Remaining(range, w) && !next.NotStarted?
    ensures stream.exactSeek && stream.reliable && End(range) <= |stream.content| ==> OnlyFilled(range, next)
  {
    match w
    case NotStarted =>
      var landed := stream.Seek(range.offset);
      return if landed != range.offset then Failed else Reading(0);
    case Reading(got) =>
      if got >= range.length {
        return Ended(got);
      }
      var n := stream.ReadInto(buf, range.offset + got, End(range));
      if n.Err? {
        return Failed;
      }
      return if n.value == 0 then Ended(got) else Reading(got + n.value);
  }

  function Remaining(range: Range, w: Worker): nat {
    match w
    case NotStarted => range.length + 2
    case Reading(got) => if got <= range.length then range.length - got + 1 else 0
    case Ended(_) => 0
    case Failed => 0
  }

  function AllRemaining(ranges: seq<Range>, workers: seq<Worker>): (r: seq<nat>)
    requires |ranges| == |workers|
    ensures |r| == |ranges|
  {
    seq(|ranges|, i requires 0 <= i < |ranges| => Remaining(ranges[i], workers[i]))
  }

  function AllGot(workers: seq<Worker>): (r: seq<nat>)
    ensures |r| == |workers|
  {
    seq(|workers|, i requires 0 <= i < |workers| => Got(workers[i]))
  }

  lemma {:induction false} SumUpdate(s: seq<nat>, i: nat, v: nat)
    requires i < |s|
    ensures Sum(s[i := v]) == Sum(s) - s[i] + v
  {
    if i > 0 {
      assert s[i := v][1..] == s[1..][i - 1 := v];
      SumUpdate(s[1..], i - 1, v);
    } else {
      assert s[i := v][1..] == s[1..];
    }
  }

  ghost predicate Apart(ranges: seq<Range>) {
    forall i, j :: 0 <= i < |ranges| && 0 <= j < |ranges| && i != j ==> End(ranges[i]) <= ranges[j].offset || End(ranges[j]) <= ranges[i].offset
  }

  /** Every worker has its own stream on the file and its own part of the buffer. */
  ghost predicate PoolOk(buf: array<byte>, content: seq<byte>, ranges: seq<Range>, workers: seq<Worker>, streams: seq<Stream>)
    reads buf, streams
  {
    && |ranges| == |workers| == |streams| && Apart(ranges)
    && (forall i, j :: 0 <= i < j < |streams| ==> streams[i] != streams[j])
    && (forall i :: 0 <= i < |ranges| ==> streams[i].content == content && RangeOk(buf, content, ranges[i], workers[i]))
    && (forall i :: 0 <= i < |ranges| && streams[i].exactSeek && streams[i].reliable && End(ranges[i]) <= |content| ==> OnlyFilled(ranges[i], workers[i]))
    && (forall i :: 0 <= i < |ranges| && workers[i].Reading? ==> streams[i].pos == ranges[i].offset + workers[i].got)
  }

  method OneStep(buf: array<byte>, content: seq<byte>, ranges: seq<Range>, workers: seq<Worker>, streams: seq<Stream>, i: nat)
    returns (next: seq<Worker>)
    requires PoolOk(buf, content, ranges, workers, streams) && i < |workers| && Active(workers[i])
    modifies buf, streams
    ensures PoolOk(buf, content, ranges, next, streams)
    ensures Sum(AllRemaining(ranges, next)) < Sum(AllRemaining(ranges, workers))
  {
    var w := WorkerStep(buf, streams[i], ranges[i], workers[i]);
    next := workers[i := w];
    SumUpdate(AllRemaining(ranges, workers), i, Remaining(ranges[i], w));
    assert AllRemaining(ranges, next) == AllRemaining(ranges, workers)[i := Remaining(ranges[i], w)];
    forall j | 0 <= j < |ranges| ensures RangeOk(buf, content, ranges[j], next[j]) {
      if j != i {
        assert old(RangeOk(buf, content, ranges[j], workers[j]));
        assert forall p :: ranges[j].offset <= p < ranges[j].offset + Got(workers[j]) ==> !InRange(ranges[i], p);
      }
    }
  }

  predicate AnyActive(workers: seq<Worker>) {
    exists i :: 0 <= i < |workers| && Active(workers[i])
  }

  /** Runs the workers in any interleaving until none can go on. */
  method RunWorkers(buf: array<byte>, content: seq<byte>, ranges: seq<Range>, streams: seq<Stream>) returns (workers: seq<Worker>)
    requires PoolOk(buf, content, ranges, seq(|ranges|, _ => NotStarted), streams)
    modifies buf, streams
    ensures PoolOk(buf, content, ranges, workers, streams) && !AnyActive(workers)
  {
    workers := seq(|ranges|, _ => NotStarted);
    while AnyActive(workers)
      invariant PoolOk(buf, content, ranges, workers, streams)
      decreases Sum(AllRemaining(ranges, workers))
    {
      var i: nat :| i < |workers| && Active(workers[i]);
      workers := OneStep(buf, content, ranges, workers, streams, i);
    }
  }

  lemma SoundWorkersFill(buf: array<byte>, content: seq<byte>, ranges: seq<Range>, workers: seq<Worker>, streams: seq<Stream>)
    requires PoolOk(buf, content, ranges, workers, streams) && !AnyActive(workers)
    requires forall i :: 0 <= i < |ranges| ==> streams[i].exactSeek && streams[i].reliable && End(ranges[i]) <= |content|
    ensures AllGot(workers) == Lengths(ranges)
    ensures forall i :: 0 <= i < |workers| ==> !workers[i].Failed?
  {
    forall i | 0 <= i < |ranges| ensures AllGot(workers)[i] == Lengths(ranges)[i] && !workers[i].Failed? {
      assert !Active(workers[i]) && OnlyFilled(ranges[i], workers[i]);
    }
  }

  /** Each range by a worker of its own, on a stream of its own. */
  method FillRanges(buf: array<byte>, content: seq<byte>, backend: Backend, ranges: seq<Range>) returns (workers: seq<Worker>)
    requires Apart(ranges) && forall i :: 0 <= i < |ranges| ==> End(ranges[i]) <= buf.Length
    modifies buf
    ensures |workers| == |ranges| && forall i :: 0 <= i < |ranges| ==> RangeOk(buf, content, ranges[i], workers[i])
    ensures backend.exactSeek && backend.reliable && buf.Length <= |content| ==>
      AllGot(workers) == Lengths(ranges) && forall i :: 0 <= i < |workers| ==> !workers[i].Failed?
  {
    var streams := OpenAll(content, backend, |ranges|);
    workers := RunWorkers(buf, content, ranges, streams);
    if backend.exactSeek && backend.reliable && buf.Length <= |content| {
      SoundWorkersFill(buf, content, ranges, workers, streams);
    }
  }

  /** The byte total equals the buffer size only if every range was filled, and then the
      buffer holds the file. */
  method FillParallel(buf: array<byte>, content: seq<byte>, backend: Backend, chunk: nat) returns (r: Result<nat, ReadError>)
    requires chunk > 0
    modifies buf
    ensures r.Ok? ==> r.value <= buf.Length
    ensures r == Ok(buf.Length) ==> FilledTo(buf, content, buf.Length)
    ensures backend.exactSeek && backend.reliable && buf.Length <= |content| ==> r == Ok(buf.Length)
  {
    var ranges := RangesFrom(0, buf.Length, chunk);
    RangesTile(0, buf.Length, chunk);
    var workers := FillRanges(buf, content, backend, ranges);
    if exists i :: 0 <= i < |workers| && workers[i].Failed? {
      return Err(OsError);
    }
    SumReachesOnlyIfAll(AllGot(workers), Lengths(ranges));
    if Sum(AllGot(workers)) == buf.Length {
      AllRangesFilled(buf, content, ranges, workers);
    }
    return Ok(Sum(AllGot(workers)));
  }

  ghost predicate IsOpen(stream: Stream, content: seq<byte>, backend: Backend) {
    stream.content == content && stream.exactSeek == backend.exactSeek && stream.reliable == backend.reliable
  }

  method OpenAll(content: seq<byte>, backend: Backend, n: nat) returns (streams: seq<Stream>)
    ensures |streams| == n && forall i :: 0 <= i < n ==> fresh(streams[i])
    ensures forall i, j :: 0 <= i < j < n ==> streams[i] != streams[j]
    ensures forall i :: 0 <= i < n ==> IsOpen(streams[i], content, backend)
  {
    streams := [];
    for k := 0 to n
      invariant |streams| == k && forall i :: 0 <= i < k ==> fresh(streams[i])
      invariant forall i, j :: 0 <= i < j < k ==> streams[i] != streams[j]
      invariant forall i :: 0 <= i < k ==> IsOpen(streams[i], content, backend)
    {
      var stream := new Stream(content, backend.exactSeek, backend.reliable);
      streams := streams + [stream];
    }
  }

  lemma AllRangesFilled(buf: array<byte>, content: seq<byte>, ranges: seq<Range>, workers: seq<Worker>)
    requires |ranges| == |workers| && AllGot(workers) == Lengths(ranges)
    requires forall i :: 0 <= i < |ranges| ==> RangeOk(buf, content, ranges[i], workers[i])
    requires forall p: nat :: 0 <= p < buf.Length ==> Covers(ranges, p)
    ensures FilledTo(buf, content, buf.Length)
  {
    forall p: nat | p < buf.Length ensures p < |content| && buf[p] == content[p] {
      assert Covers(ranges, p);
      var i :| 0 <= i < |ranges| && InRange(ranges[i], p);
      assert AllGot(workers)[i] == Lengths(ranges)[i];
      assert RangeOk(buf, content, ranges[i], workers[i]);
    }
    if buf.Length > 0 {
      var last := buf[buf.Length - 1];
    }
  }

  // ----- the whole fill

  datatype Mode = Serial | Parallel | SerialAfterParallelFailure | SerialAfterShortParallel

  /** Parallel reads when they pay off; a failed or short parallel attempt is redone
      sequentially from the start. So a backend whose reads can be relied on always fills
      the buffer as far as the file goes, even if it cannot seek. */
  method PythonFill(buf: array<byte>, content: seq<byte>, backend: Backend, workers: nat, chunk: nat)
    returns (r: Result<(nat, Mode), ReadError>)
    requires workers > 0 && chunk > 0
    modifies buf
    ensures r.Ok? && r.value.0 == buf.Length ==> FilledTo(buf, content, buf.Length)
    ensures r.Ok? ==> r.value.0 <= buf.Length
    ensures r.Ok? && r.value.1 == Parallel ==> workers > 1 && buf.Length > chunk && r.value.0 == buf.Length
    ensures workers == 1 || buf.Length <= chunk ==> r.Err? || r.value.1 == Serial
    ensures backend.reliable ==> r.Ok? && r.value.0 == Lesser(buf.Length, |content|)
    ensures backend.reliable && backend.exactSeek && workers > 1 && chunk < buf.Length <= |content| ==> r == Ok((buf.Length, Parallel))
  {
    var pos: nat := 0;
    var mode := Serial;
    if workers > 1 && buf.Length > chunk {
      var parallel := FillParallel(buf, content, backend, chunk);
      if parallel.Ok? {
        pos, mode := parallel.value, Parallel;
      } else {
        mode := SerialAfterParallelFailure;
      }
    }
    if pos != buf.Length {
      if mode == Parallel {
        mode := SerialAfterShortParallel;
      }
      var stream := new Stream(content, backend.exactSeek, backend.reliable);
      var serial := FillSerial(buf, stream);
      if serial.Err? {
        return Err(serial.error);
      }
      pos := serial.value;
    }
    return Ok((pos, mode));
  }

  /** What a backend's own fill did: there is none, it failed, or it returned a buffer. */
  datatype NativeFill = NoNative | NativeFailed | NativeReturned(data: seq<byte>)

  datatype FillError = BadGeometry | FillFailed(cause: ReadError) | ShortRead(got: nat)

  predicate UsesNative(native: NativeFill, expected: nat) {
    expected > 0 && native.NativeReturned? && |native.data| == expected
  }

  /** A buffer with exactly the file's first `expected` bytes, or an error; a native fill
      is taken as it is if its length is right. For a file of the expected size the buffer
      is the file. */
  method StreamStorageIntoMmap(expected: nat, content: seq<byte>, backend: Backend, workers: int, chunk: int, native: NativeFill)
    returns (r: Result<seq<byte>, FillError>)
    ensures r == Err(BadGeometry) <==> workers < 1 || chunk < 1
    ensures workers >= 1 && chunk >= 1 && UsesNative(native, expected) ==> r == Ok(native.data)
    ensures workers >= 1 && chunk >= 1 && !UsesNative(native, expected) && backend.reliable ==>
      r == if expected <= |content| then Ok(content[..expected]) else Err(ShortRead(|content|))
    ensures r.Ok? && !UsesNative(native, expected) ==> expected <= |content| && r.value == content[..expected]
    ensures r.Ok? && !UsesNative(native, expected) && expected == |content| ==> r.value == content
  {
    if workers < 1 || chunk < 1 {
      return Err(BadGeometry);
    }
    var pythonWorkers: nat := workers;
    if native != NoNative && expected > 0 {
      if native.NativeReturned? && |native.data| == expected {
        return Ok(native.data);
      }
      pythonWorkers := 1;
    }
    var buf := new byte[expected];
    var filled := PythonFill(buf, content, backend, pythonWorkers, chunk);
    if filled.Err? {
      return Err(FillFailed(filled.error));
    }
    if filled.value.0 != expected {
      return Err(ShortRead(filled.value.0));
    }
    assert buf[..] == buf[..expected];
    return Ok(buf[..]);
  }
}
