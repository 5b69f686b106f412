/** One consolidated output file (hf/consolidation.py). */
module OutputFiles {
  import opened Wrappers
  import opened Geometry
  import opened Streams
  import opened LengthPrefix
  import opened SliceAssembly
  import opened ReadAhead
  import LoadPlans
  import SliceSelection

  // A header that declares where each tensor's bytes lie, then the tensors in order
  // (_prepare_metadata and _process_output_file).

  type TensorSlices = (string, seq<SerializedSlice>)

  /** A tensor's header entry; `begin` and `end` are its data offsets. */
  datatype Entry = Entry(shape: Dims, dtype: string, begin: nat, end: nat)

  /** The JSON text of header entries. */
  type Encoder = seq<(string, Entry)> -> seq<byte>

  datatype OutputError = UnsupportedDtype(fqn: string) | HeaderTooLong | ReadFailed(failure: ReadFailure)

  predicate AllNonEmpty(tensors: seq<TensorSlices>) {
    forall i :: 0 <= i < |tensors| ==> tensors[i].1 != []
  }

  function TotalBytes(tensors: seq<TensorSlices>): nat
    requires AllNonEmpty(tensors)
  {
    if tensors == [] then 0
    else TotalBytes(tensors[..|tensors| - 1]) + FullTensorBytes(tensors[|tensors| - 1].1)
  }

  /** Each entry follows the previous one without a gap and is as long as its tensor. */
  ghost predicate Declares(entries: seq<(string, Entry)>, tensors: seq<TensorSlices>)
    requires AllNonEmpty(tensors)
  {
    |entries| == |tensors| && forall i :: 0 <= i < |entries| ==> DeclaresAt(entries[i], tensors, i)
  }

  ghost predicate DeclaresAt(entry: (string, Entry), tensors: seq<TensorSlices>, i: nat)
    requires AllNonEmpty(tensors) && i < |tensors|
  {
    && entry.0 == tensors[i].0
    && entry.1.shape == tensors[i].1[0].globalShape
    && entry.1.begin == TotalBytes(tensors[..i])
    && entry.1.end == entry.1.begin + FullTensorBytes(tensors[i].1)
  }

  predicate KnownDtypes(tensors: seq<TensorSlices>, safetensorsDtype: map<string, string>)
    requires AllNonEmpty(tensors)
  {
    forall i :: 0 <= i < |tensors| ==> tensors[i].1[0].dtype in safetensorsDtype
  }

  predicate NamesDtypes(entries: seq<(string, Entry)>, tensors: seq<TensorSlices>, safetensorsDtype: map<string, string>)
    requires AllNonEmpty(tensors) && |entries| == |tensors| && KnownDtypes(tensors, safetensorsDtype)
  {
    forall i :: 0 <= i < |tensors| ==> entries[i].1.dtype == safetensorsDtype[tensors[i].1[0].dtype]
  }

  method PrepareEntries(tensors: seq<TensorSlices>, safetensorsDtype: map<string, string>)
    returns (r: Result<seq<(string, Entry)>, OutputError>)
    requires AllNonEmpty(tensors)
    ensures r.Ok? <==> KnownDtypes(tensors, safetensorsDtype)
    ensures r.Err? ==> r.error.UnsupportedDtype?
    ensures r.Ok? ==> Declares(r.value, tensors) && NamesDtypes(r.value, tensors, safetensorsDtype)
  {
    var entries: seq<(string, Entry)> := [];
    var currentOffset := 0;
    for i := 0 to |tensors|
      invariant KnownDtypes(tensors[..i], safetensorsDtype)
      invariant |entries| == i && Declares(entries, tensors[..i])
      invariant forall j :: 0 <= j < i ==> entries[j].1.dtype == safetensorsDtype[tensors[..i][j].1[0].dtype]
      invariant currentOffset == TotalBytes(tensors[..i])
    {
      var first := tensors[i].1[0];
      if first.dtype !in safetensorsDtype {
        return Err(UnsupportedDtype(tensors[i].0));
      }
      var endOffset := currentOffset + Product(first.globalShape) * first.elementSize;
      var entry := Entry(first.globalShape, safetensorsDtype[first.dtype], currentOffset, endOffset);
      DeclaresNext(entries, tensors[..i], tensors[i], entry);
      assert tensors[..i + 1] == tensors[..i] + [tensors[i]];
      entries := entries + [(tensors[i].0, entry)];
      currentOffset := endOffset;
    }
    assert tensors[..|tensors|] == tensors;
    return Ok(entries);
  }

  lemma DeclaresNext(entries: seq<(string, Entry)>, tensors: seq<TensorSlices>, next: TensorSlices, entry: Entry)
    requires AllNonEmpty(tensors) && next.1 != [] && Declares(entries, tensors)
    requires entry.shape == next.1[0].globalShape && entry.begin == TotalBytes(tensors)
    requires entry.end == entry.begin + FullTensorBytes(next.1)
    ensures TotalBytes(tensors + [next]) == entry.end
    ensures Declares(entries + [(next.0, entry)], tensors + [next])
  {
    var all := tensors + [next];
    assert all[..|tensors|] == tensors;
    forall j | 0 <= j < |entries| ensures DeclaresAt(entries[j], all, j) {
      assert DeclaresAt(entries[j], tensors, j);
      assert all[..j] == tensors[..j];
    }
  }

  function Concat(parts: seq<seq<byte>>): seq<byte> {
    if parts == [] then [] else Concat(parts[..|parts| - 1]) + parts[|parts| - 1]
  }

  /** Part by part, the assembled tensors of the work list. */
  ghost predicate AreTensors(work: seq<seq<SerializedSlice>>, storage: Storage, parts: seq<seq<byte>>) {
    && |parts| == |work|
    && (parts != [] ==>
         var n := |parts| - 1;
         AreTensors(work[..n], storage, parts[..n]) && IsTensor(work[n], storage, parts[n]))
  }

  lemma {:induction false} TensorLengths(work: seq<seq<SerializedSlice>>, storage: Storage, parts: seq<seq<byte>>, i: nat)
    requires AreTensors(work, storage, parts) && i < |parts|
    ensures work[i] != [] && |parts[i]| == FullTensorBytes(work[i])
  {
    if i < |parts| - 1 {
      TensorLengths(work[..|parts| - 1], storage, parts[..|parts| - 1], i);
    }
  }

  lemma {:induction false} ConcatLength(tensors: seq<TensorSlices>, parts: seq<seq<byte>>)
    requires AllNonEmpty(tensors) && |parts| == |tensors|
    requires forall i :: 0 <= i < |parts| ==> |parts[i]| == FullTensorBytes(tensors[i].1)
    ensures |Concat(parts)| == TotalBytes(tensors)
  {
    if parts != [] {
      ConcatLength(tensors[..|tensors| - 1], parts[..|parts| - 1]);
    }
  }

  lemma {:induction false} ConcatPart(parts: seq<seq<byte>>, i: nat)
    requires i < |parts|
    ensures |Concat(parts[..i])| + |parts[i]| <= |Concat(parts)|
    ensures Concat(parts)[|Concat(parts[..i])|..|Concat(parts[..i])| + |parts[i]|] == parts[i]
  {
    var n := |parts| - 1;
    if i < n {
      ConcatPart(parts[..n], i);
      assert parts[..n][..i] == parts[..i];
    }
  }

  /** The tensors land at the data offsets the header declares, and fill the data part. */
  lemma TensorsAtDeclaredOffsets(tensors: seq<TensorSlices>, entries: seq<(string, Entry)>, storage: Storage,
                                 parts: seq<seq<byte>>, i: nat)
    requires AllNonEmpty(tensors) && Declares(entries, tensors) && AreTensors(Seconds(tensors), storage, parts) && i < |tensors|
    ensures entries[i].1.begin <= entries[i].1.end <= |Concat(parts)| == TotalBytes(tensors)
    ensures Concat(parts)[entries[i].1.begin..entries[i].1.end] == parts[i]
    ensures i + 1 < |tensors| ==> entries[i + 1].1.begin == entries[i].1.end
  {
    PartLengths(tensors, storage, parts, i);
    ConcatPart(parts, i);
    assert DeclaresAt(entries[i], tensors, i);
    if i + 1 < |tensors| {
      NextBegins(entries, tensors, i);
    }
  }

  lemma PartLengths(tensors: seq<TensorSlices>, storage: Storage, parts: seq<seq<byte>>, i: nat)
    requires AllNonEmpty(tensors) && AreTensors(Seconds(tensors), storage, parts) && i < |tensors|
    ensures |parts[i]| == FullTensorBytes(tensors[i].1)
    ensures |Concat(parts)| == TotalBytes(tensors) && |Concat(parts[..i])| == TotalBytes(tensors[..i])
  {
    forall j | 0 <= j < |parts| ensures |parts[j]| == FullTensorBytes(tensors[j].1) {
      TensorLengths(Seconds(tensors), storage, parts, j);
    }
    ConcatLength(tensors, parts);
    ConcatLength(tensors[..i], parts[..i]);
  }

  lemma NextBegins(entries: seq<(string, Entry)>, tensors: seq<TensorSlices>, i: nat)
    requires AllNonEmpty(tensors) && Declares(entries, tensors) && i + 1 < |tensors|
    ensures entries[i + 1].1.begin == entries[i].1.end
  {
    assert DeclaresAt(entries[i], tensors, i) && DeclaresAt(entries[i + 1], tensors, i + 1);
    assert tensors[..i + 1][..i] == tensors[..i];
  }

  /** The header: the JSON text of the entries behind its length. */
  method PrepareMetadata(tensors: seq<TensorSlices>, safetensorsDtype: map<string, string>, encode: Encoder)
    returns (r: Result<seq<byte>, OutputError>, ghost entries: seq<(string, Entry)>)
    requires AllNonEmpty(tensors)
    ensures r.Err? && r.error.UnsupportedDtype? <==> !KnownDtypes(tensors, safetensorsDtype)
    ensures r.Err? ==> r.error.UnsupportedDtype? || r.error.HeaderTooLong?
    ensures KnownDtypes(tensors, safetensorsDtype) ==> Declares(entries, tensors) && (r.Ok? <==> |encode(entries)| < PREFIX_LIMIT)
    ensures r.Ok? ==>
      && Declares(entries, tensors) && NamesDtypes(entries, tensors, safetensorsDtype)
      && Prefixed(encode(entries)) == Some(r.value)
  {
    var prepared := PrepareEntries(tensors, safetensorsDtype);
    if prepared.Err? {
      return Err(prepared.error), [];
    }
    entries := prepared.value;
    var metadata := Prefixed(encode(prepared.value));
    return if metadata.None? then Err(HeaderTooLong) else Ok(metadata.value), entries;
  }

  /** What the output file holds: the JSON header for these tensors, then their data. */
  ghost predicate IsOutputFile(content: seq<byte>, entries: seq<(string, Entry)>, json: seq<byte>,
                               tensors: seq<TensorSlices>, storage: Storage)
    requires AllNonEmpty(tensors)
  {
    && Declares(entries, tensors) && Prefixed(json).Some?
    && exists data: seq<byte> :: IsData(data, Seconds(tensors), storage) && content == Prefixed(json).value + data
  }

  /** Writes the file. The stream is published only after the last tensor, so a failure
      leaves no file. */
  method ProcessOutputFile(tensors: seq<TensorSlices>, safetensorsDtype: map<string, string>, encode: Encoder, storage: Storage,
                           handles: ReaderHandles, readerThreads: nat, budget: ReaderMemoryBudget)
    returns (r: Result<seq<byte>, OutputError>, ghost entries: seq<(string, Entry)>)
    requires AllNonEmpty(tensors) && AllReadable(Seconds(tensors))
    requires readerThreads > 0 && budget.available == budget.total && handles.Valid(storage)
    modifies budget, handles, handles.streams
    ensures r.Err? && r.error.UnsupportedDtype? <==> !KnownDtypes(tensors, safetensorsDtype)
    ensures r.Ok? ==> IsOutputFile(r.value, entries, encode(entries), tensors, storage) && NamesDtypes(entries, tensors, safetensorsDtype)
    ensures SomeUnassembled(Seconds(tensors), storage) ==> r.Err?
    ensures r.Err? && handles.reliable && KnownDtypes(tensors, safetensorsDtype) && |encode(entries)| < PREFIX_LIMIT ==>
      SomeUnassembled(Seconds(tensors), storage)
    ensures budget.available == budget.total && handles.Valid(storage)
    ensures fresh(handles.streams - old(handles.streams))
  {
    var metadata;
    metadata, entries := PrepareMetadata(tensors, safetensorsDtype, encode);
    if metadata.Err? {
      return Err(metadata.error), entries;
    }
    var data := WriteTensors(Seconds(tensors), storage, handles, readerThreads, budget);
    if data.Err? {
      return Err(ReadFailed(data.error)), entries;
    }
    return Ok(metadata.value + data.value), entries;
  }

  // ----- what a reader of the file finds

  lemma {:induction false} PartIsTensor(work: seq<seq<SerializedSlice>>, storage: Storage, parts: seq<seq<byte>>, i: nat)
    requires AreTensors(work, storage, parts) && i < |parts|
    ensures IsTensor(work[i], storage, parts[i])
  {
    if i < |parts| - 1 {
      PartIsTensor(work[..|parts| - 1], storage, parts[..|parts| - 1], i);
    }
  }

  lemma TensorInData(data: seq<byte>, entries: seq<(string, Entry)>, tensors: seq<TensorSlices>, storage: Storage, i: nat)
    requires AllNonEmpty(tensors) && Declares(entries, tensors) && IsData(data, Seconds(tensors), storage) && i < |tensors|
    ensures entries[i].1.begin <= entries[i].1.end <= |data|
    ensures IsTensor(tensors[i].1, storage, data[entries[i].1.begin..entries[i].1.end])
  {
    var parts: seq<seq<byte>> :| AreTensors(Seconds(tensors), storage, parts) && data == Concat(parts);
    TensorsAtDeclaredOffsets(tensors, entries, storage, parts, i);
    PartIsTensor(Seconds(tensors), storage, parts, i);
  }

  /** The bytes between an entry's data offsets, which count from behind the header. */
  function DataAt(content: seq<byte>, json: seq<byte>, entry: Entry): (r: seq<byte>)
    requires entry.begin <= entry.end && PREFIX_BYTES + |json| + entry.end <= |content|
    ensures |r| == entry.end - entry.begin
  {
    content[PREFIX_BYTES + |json| + entry.begin..PREFIX_BYTES + |json| + entry.end]
  }

  lemma DataBehind(header: seq<byte>, data: seq<byte>, json: seq<byte>, entry: Entry)
    requires |header| == PREFIX_BYTES + |json| && entry.begin <= entry.end <= |data|
    ensures DataAt(header + data, json, entry) == data[entry.begin..entry.end]
  {
  }

  lemma TensorBehindHeader(header: seq<byte>, data: seq<byte>, entries: seq<(string, Entry)>, json: seq<byte>,
                           tensors: seq<TensorSlices>, storage: Storage, i: nat)
    requires AllNonEmpty(tensors) && Declares(entries, tensors) && IsData(data, Seconds(tensors), storage) && i < |tensors|
    requires |header| == PREFIX_BYTES + |json|
    ensures entries[i].1.begin <= entries[i].1.end && PREFIX_BYTES + |json| + entries[i].1.end <= |header + data|
    ensures IsTensor(tensors[i].1, storage, DataAt(header + data, json, entries[i].1))
  {
    TensorInData(data, entries, tensors, storage, i);
    DataBehind(header, data, json, entries[i].1);
  }

  /** The header is found by its length prefix, and where it says the i-th tensor is, there
      is the assembled tensor. */
  lemma TensorInFile(content: seq<byte>, entries: seq<(string, Entry)>, json: seq<byte>, tensors: seq<TensorSlices>,
                     storage: Storage, i: nat)
    requires AllNonEmpty(tensors) && IsOutputFile(content, entries, json, tensors, storage) && i < |tensors|
    ensures |content| >= PREFIX_BYTES && Unprefixed(content) == json
    ensures entries[i].0 == tensors[i].0 && entries[i].1.shape == tensors[i].1[0].globalShape
    ensures entries[i].1.begin <= entries[i].1.end && PREFIX_BYTES + |json| + entries[i].1.end <= |content|
    ensures IsTensor(tensors[i].1, storage, DataAt(content, json, entries[i].1))
  {
    var data: seq<byte> :| IsData(data, Seconds(tensors), storage) && content == Prefixed(json).value + data;
    PrefixRoundTrip(json, data);
    assert DeclaresAt(entries[i], tensors, i);
    TensorBehindHeader(Prefixed(json).value, data, entries, json, tensors, storage, i);
  }

  /** The tensor's slices were resolved from a checkpoint whose files hold their ranks'
      parts of g where their headers say, and what its group wrote covers the tensor. */
  ghost predicate SavedTensor(tensor: TensorSlices, groups: seq<LoadPlans.Group>, m: nat, files: SliceSelection.SourceFiles,
                              storage: Storage, g: seq<byte>)
  {
    && SliceSelection.Resolved(groups, m, tensor.0, files, tensor.1)
    && groups[m].sharding.dtype in files.elementSize
    && SliceSelection.HeadersLocateParts(groups[m], tensor.0, files, storage, g)
    && forall e: nat :: e < Product(groups[m].sharding.globalShape) ==> SliceSelection.WrittenByGroup(groups[m], files, e)
  }

  lemma SavedTensorIsExact(tensor: TensorSlices, groups: seq<LoadPlans.Group>, m: nat, files: SliceSelection.SourceFiles,
                           storage: Storage, g: seq<byte>, result: seq<byte>)
    requires SavedTensor(tensor, groups, m, files, storage, g) && IsTensor(tensor.1, storage, result)
    ensures result == g
  {
    SliceSelection.ConsolidatedTensorIsExact(groups, m, tensor.0, files, tensor.1, storage, g, result);
  }

  /** From the shards to the file: the header is found by its length prefix, and between
      the data offsets it declares for a saved tensor are exactly that tensor's bytes. */
  lemma ConsolidatedFileIsExact(content: seq<byte>, entries: seq<(string, Entry)>, json: seq<byte>, tensors: seq<TensorSlices>,
                                storage: Storage, i: nat, groups: seq<LoadPlans.Group>, m: nat, files: SliceSelection.SourceFiles,
                                g: seq<byte>)
    requires AllNonEmpty(tensors) && IsOutputFile(content, entries, json, tensors, storage) && i < |tensors|
    requires SavedTensor(tensors[i], groups, m, files, storage, g)
    ensures |content| >= PREFIX_BYTES && Unprefixed(content) == json
    ensures entries[i].0 == tensors[i].0 && entries[i].1.shape == groups[m].sharding.globalShape
    ensures entries[i].1.begin <= entries[i].1.end && PREFIX_BYTES + |json| + entries[i].1.end <= |content|
    ensures DataAt(content, json, entries[i].1) == g
  {
    TensorInFile(content, entries, json, tensors, storage, i);
    SliceSelection.SelectionIsOneTensor(groups, m, tensors[i].0, files, tensors[i].1);
    SavedTensorIsExact(tensors[i], groups, m, files, storage, g, DataAt(content, json, entries[i].1));
  }

  ghost predicate IsData(data: seq<byte>, work: seq<seq<SerializedSlice>>, storage: Storage) {
    exists parts: seq<seq<byte>> :: AreTensors(work, storage, parts) && data == Concat(parts)
  }

  lemma NextData(data: seq<byte>, work: seq<seq<SerializedSlice>>, n: nat, storage: Storage, tensor: seq<byte>)
    requires n < |work| && IsData(data, work[..n], storage) && IsTensor(work[n], storage, tensor)
    ensures IsData(data + tensor, work[..n + 1], storage)
  {
    var parts: seq<seq<byte>> :| AreTensors(work[..n], storage, parts) && data == Concat(parts);
    var more := parts + [tensor];
    assert more[..n] == parts && more[n] == tensor;
    assert work[..n + 1][..n] == work[..n] && work[..n + 1][n] == work[n];
    assert AreTensors(work[..n + 1], storage, more) && data + tensor == Concat(more);
  }

  /** What has been drained after `n` tensors. */
  ghost predicate DataUpTo(data: seq<byte>, work: seq<seq<SerializedSlice>>, n: nat, storage: Storage) {
    n <= |work| && IsData(data, work[..n], storage)
  }

  /** Some tensor of the work list cannot be assembled from the storage. */
  predicate SomeUnassembled(work: seq<seq<SerializedSlice>>, storage: Storage)
    requires AllReadable(work)
  {
    exists i :: 0 <= i < |work| && !CanAssemble(work[i], storage)
  }

  datatype Drained = Continue(output: seq<byte>) | Finished(output: seq<byte>) | Broken(failure: ReadFailure)

  /** One round of the writer's loop: append the next tensor, or stop. */
  method DrainNext(reader: FullTensorReader, output: seq<byte>, storage: Storage, handles: ReaderHandles) returns (r: Drained)
    requires reader.Valid() && !reader.closed && AllReadable(reader.work) && handles.Valid(storage)
    requires DataUpTo(output, reader.work, reader.Yielded(), storage)
    modifies reader, reader.budget, handles, handles.streams
    ensures reader.Valid() && handles.Valid(storage) && fresh(handles.streams - old(handles.streams))
    ensures r.Continue? <==> !reader.closed
    ensures r.Continue? ==> reader.Yielded() == old(reader.Yielded()) + 1 && DataUpTo(r.output, reader.work, reader.Yielded(), storage)
    ensures r.Continue? ==> old(reader.Yielded()) < |reader.work| && CanAssemble(reader.work[old(reader.Yielded())], storage)
    ensures r.Finished? ==> old(reader.Yielded()) == |reader.work| && IsData(r.output, reader.work, storage)
    ensures r.Broken? && handles.reliable ==> SomeUnassembled(reader.work, storage)
    ensures !r.Continue? ==> reader.budget.available == reader.budget.total
  {
    ghost var n := reader.Yielded();
    var next := reader.Next(storage, handles);
    match next
    case Done =>
      assert reader.work[..n] == reader.work;
      return Finished(output);
    case Failed(failure) =>
      return Broken(failure);
    case Yield(tensor) =>
      NextData(output, reader.work, n, storage, tensor);
      return Continue(output + tensor);
  }

  lemma NoData(work: seq<seq<SerializedSlice>>, storage: Storage)
    ensures DataUpTo([], work, 0, storage)
  {
    var none: seq<seq<byte>> := [];
    assert AreTensors(work[..0], storage, none) && Concat(none) == [];
  }

  /** Drains the read-ahead pipeline into the output. */
  method Drain(reader: FullTensorReader, storage: Storage, handles: ReaderHandles) returns (r: Result<seq<byte>, ReadFailure>)
    requires reader.Valid() && !reader.closed && AllReadable(reader.work) && handles.Valid(storage)
    requires DataUpTo([], reader.work, reader.Yielded(), storage) && reader.Yielded() == 0
    modifies reader, reader.budget, handles, handles.streams
    ensures r.Ok? ==> IsData(r.value, reader.work, storage) && !SomeUnassembled(reader.work, storage)
    ensures r.Err? && handles.reliable ==> SomeUnassembled(reader.work, storage)
    ensures reader.budget.available == reader.budget.total && handles.Valid(storage)
    ensures fresh(handles.streams - old(handles.streams))
  {
    var output: seq<byte> := [];
    while true
      invariant reader.Valid() && !reader.closed && handles.Valid(storage)
      invariant fresh(handles.streams - old(handles.streams))
      invariant DataUpTo(output, reader.work, reader.Yielded(), storage)
      invariant reader.Yielded() <= |reader.work| && forall i :: 0 <= i < reader.Yielded() ==> CanAssemble(reader.work[i], storage)
      decreases |reader.work| - reader.Yielded()
    {
      var next := DrainNext(reader, output, storage, handles);
      match next
      case Continue(more) =>
        output := more;
      case Finished(all) =>
        return Ok(all);
      case Broken(failure) =>
        return Err(failure);
    }
  }

  method WriteTensors(work: seq<seq<SerializedSlice>>, storage: Storage, handles: ReaderHandles, readerThreads: nat, budget: ReaderMemoryBudget)
    returns (r: Result<seq<byte>, ReadFailure>)
    requires AllReadable(work)
    requires readerThreads > 0 && budget.available == budget.total && handles.Valid(storage)
    modifies budget, handles, handles.streams
    ensures r.Ok? ==> IsData(r.value, work, storage) && !SomeUnassembled(work, storage)
    ensures r.Err? && handles.reliable ==> SomeUnassembled(work, storage)
    ensures budget.available == budget.total && handles.Valid(storage)
    ensures fresh(handles.streams - old(handles.streams))
  {
    var reader := new FullTensorReader(work, readerThreads, budget);
    NoData(work, storage);
    r := Drain(reader, storage, handles);
  }
}
