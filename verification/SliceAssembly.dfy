/** Assembling one full tensor from the slices that ranks wrote (hf/consolidation.py). */
module SliceAssembly {
  import opened Wrappers
  import opened Geometry
  import opened Streams
  import opened LoadPlans

  // The buffer holds the tensor's bytes in row-major order. A slice that is one contiguous
  // run is read straight into its byte range; any other slice is read aside and its elements
  // are placed one by one (_read_full_tensor_into_from_storage and its helpers).

  datatype ByteAddress = ByteAddress(path: string, start: nat, end: nat) {
    function NumBytes(): int { end - start }
  }

  /** A resolved slice: its region of the global tensor and the bytes that hold it. */
  datatype SerializedSlice = SerializedSlice(globalShape: Dims, box: ShardBox, dtype: string, elementSize: nat,
                                             sourceRank: Rank, address: ByteAddress)

  datatype ReadFailure = ScalarNeedsOneSlice | MissingFile(path: string) | SizeMismatch | Unreadable(cause: ReadError)

  type Storage = map<string, seq<byte>>

  predicate DescribesTensor(s: SerializedSlice, shape: Dims, es: nat) {
    s.globalShape == shape && s.elementSize == es > 0 && BoxInShape(s.box, shape)
  }

  predicate OneTensor(slices: seq<SerializedSlice>, shape: Dims, es: nat) {
    es > 0 && forall i :: 0 <= i < |slices| ==> DescribesTensor(slices[i], shape, es)
  }

  // ----- positions of a box inside the tensor and inside the packed slice

  predicate ElementInBox(shape: Dims, box: ShardBox, e: nat)
    requires e < Product(shape)
  {
    InBox(Unravel(shape, e), box)
  }

  /** Where element e of the tensor sits in the packed box. */
  function LocalElement(shape: Dims, box: ShardBox, e: nat): (q: nat)
    requires e < Product(shape) && ElementInBox(shape, box, e)
    ensures q < Product(box.size)
  {
    RowMajorBound(box.size, ToLocal(Unravel(shape, e), box));
    RowMajor(box.size, ToLocal(Unravel(shape, e), box))
  }

  /** Where element q of the packed box belongs in the tensor. */
  function GlobalElement(shape: Dims, box: ShardBox, q: nat): (e: nat)
    requires BoxInShape(box, shape) && q < Product(box.size)
    ensures e < Product(shape)
  {
    PlusInBox(box, Unravel(box.size, q));
    RowMajorBound(shape, Plus(box.offset, Unravel(box.size, q)));
    RowMajor(shape, Plus(box.offset, Unravel(box.size, q)))
  }

  lemma LocalOfGlobalElement(shape: Dims, box: ShardBox, q: nat)
    requires BoxInShape(box, shape) && q < Product(box.size)
    ensures ElementInBox(shape, box, GlobalElement(shape, box, q))
    ensures LocalElement(shape, box, GlobalElement(shape, box, q)) == q
  {
    PlusInBox(box, Unravel(box.size, q));
    UnravelOfRowMajor(shape, Plus(box.offset, Unravel(box.size, q)));
    RowMajorOfUnravel(box.size, q);
  }

  lemma GlobalOfLocalElement(shape: Dims, box: ShardBox, e: nat)
    requires BoxInShape(box, shape) && e < Product(shape) && ElementInBox(shape, box, e)
    ensures GlobalElement(shape, box, LocalElement(shape, box, e)) == e
  {
    UnravelOfRowMajor(box.size, ToLocal(Unravel(shape, e), box));
    RowMajorOfUnravel(shape, e);
  }

  // ----- the same positions, counted in bytes

  /** Byte r of element e. */
  function ByteOf(e: nat, r: nat, es: nat): (b: nat) {
    e * es + r
  }

  lemma ByteOfParts(e: nat, r: nat, es: nat, n: nat)
    requires r < es && e < n
    ensures ByteOf(e, r, es) < n * es && ByteOf(e, r, es) / es == e && ByteOf(e, r, es) % es == r
  {
    StrictlyLess(e, n, es);
    DivModUnique(e, r, es);
  }

  lemma PartsOfByte(b: nat, es: nat, n: nat)
    requires b < n * es
    ensures es > 0 && b / es < n && b % es < es && ByteOf(b / es, b % es, es) == b
  {
    DivModBounds(b, n, es);
  }

  predicate ByteInBox(shape: Dims, box: ShardBox, es: nat, b: nat)
    requires b < Product(shape) * es
  {
    PartsOfByte(b, es, Product(shape));
    ElementInBox(shape, box, b / es)
  }

  /** Where byte b of the tensor sits in the packed bytes of the box. */
  function LocalByte(shape: Dims, box: ShardBox, es: nat, b: nat): (k: nat)
    requires b < Product(shape) * es && ByteInBox(shape, box, es, b)
    ensures k < Product(box.size) * es
  {
    PartsOfByte(b, es, Product(shape));
    ByteOfParts(LocalElement(shape, box, b / es), b % es, es, Product(box.size));
    ByteOf(LocalElement(shape, box, b / es), b % es, es)
  }

  /** Where byte k of the packed bytes of the box belongs in the tensor. */
  function GlobalByte(shape: Dims, box: ShardBox, es: nat, k: nat): (b: nat)
    requires BoxInShape(box, shape) && k < Product(box.size) * es
    ensures b < Product(shape) * es
  {
    PartsOfByte(k, es, Product(box.size));
    ByteOfParts(GlobalElement(shape, box, k / es), k % es, es, Product(shape));
    ByteOf(GlobalElement(shape, box, k / es), k % es, es)
  }

  lemma LocalOfGlobal(shape: Dims, box: ShardBox, es: nat, k: nat)
    requires BoxInShape(box, shape) && k < Product(box.size) * es
    ensures ByteInBox(shape, box, es, GlobalByte(shape, box, es, k))
    ensures LocalByte(shape, box, es, GlobalByte(shape, box, es, k)) == k
  {
    PartsOfByte(k, es, Product(box.size));
    LocalOfGlobalElement(shape, box, k / es);
    ByteOfParts(GlobalElement(shape, box, k / es), k % es, es, Product(shape));
  }

  lemma GlobalOfLocal(shape: Dims, box: ShardBox, es: nat, b: nat)
    requires BoxInShape(box, shape) && b < Product(shape) * es && ByteInBox(shape, box, es, b)
    ensures GlobalByte(shape, box, es, LocalByte(shape, box, es, b)) == b
  {
    PartsOfByte(b, es, Product(shape));
    GlobalOfLocalElement(shape, box, b / es);
    ByteOfParts(LocalElement(shape, box, b / es), b % es, es, Product(box.size));
  }

  /** The buffer after the packed bytes of a box replaced that box's bytes. */
  ghost predicate Pasted(shape: Dims, box: ShardBox, es: nat, data: seq<byte>, before: seq<byte>, after: seq<byte>)
    requires es > 0
  {
    && |before| == |after| == Product(shape) * es && |data| == Product(box.size) * es
    && forall b :: 0 <= b < |after| ==>
         after[b] == if ByteInBox(shape, box, es, b) then data[LocalByte(shape, box, es, b)] else before[b]
  }

  /** Placing packed elements at the positions of a box, as the torch helper
      _write_sub_tensor_to_file_optimized is documented to do. */
  method WriteSubTensor(buffer: array<byte>, data: seq<byte>, es: nat, shape: Dims, box: ShardBox)
    requires es > 0 && BoxInShape(box, shape)
    requires buffer.Length == Product(shape) * es && |data| == Product(box.size) * es
    modifies buffer
    ensures Pasted(shape, box, es, data, old(buffer[..]), buffer[..])
  {
    ghost var before := buffer[..];
    for k := 0 to |data|
      invariant forall b :: 0 <= b < buffer.Length ==>
        buffer[b] == if ByteInBox(shape, box, es, b) && LocalByte(shape, box, es, b) < k
                     then data[LocalByte(shape, box, es, b)] else before[b]
    {
      LocalOfGlobal(shape, box, es, k);
      forall b | 0 <= b < buffer.Length && ByteInBox(shape, box, es, b) && LocalByte(shape, box, es, b) == k
        ensures b == GlobalByte(shape, box, es, k)
      {
        GlobalOfLocal(shape, box, es, b);
      }
      buffer[GlobalByte(shape, box, es, k)] := data[k];
    }
  }

  /** A contiguous slice occupies one byte range, in the order it is packed. */
  lemma RunBytes(shape: Dims, box: ShardBox, es: nat, b: nat)
    requires BoxInShape(box, shape) && Product(box.size) > 0 && b < Product(shape) * es
    requires ContiguousElementRange(shape, box).Some?
    ensures var (lo, hi) := ContiguousElementRange(shape, box).value;
      && (ByteInBox(shape, box, es, b) <==> lo * es <= b < hi * es)
      && (ByteInBox(shape, box, es, b) ==> LocalByte(shape, box, es, b) == b - lo * es)
  {
    var (lo, hi) := ContiguousElementRange(shape, box).value;
    PartsOfByte(b, es, Product(shape));
    RangeOfQuotient(b, es, lo, hi);
    RunElement(shape, box, b / es);
    if ByteInBox(shape, box, es, b) {
      Scale(lo, LocalElement(shape, box, b / es), es);
    }
  }

  lemma RunElement(shape: Dims, box: ShardBox, e: nat)
    requires BoxInShape(box, shape) && Product(box.size) > 0 && e < Product(shape)
    requires ContiguousElementRange(shape, box).Some?
    ensures var (lo, hi) := ContiguousElementRange(shape, box).value;
      && (ElementInBox(shape, box, e) <==> lo <= e < hi)
      && (ElementInBox(shape, box, e) ==> e == lo + LocalElement(shape, box, e))
  {
    ContiguousRangeIffRun(shape, box);
    var (lo, hi) := ContiguousElementRange(shape, box).value;
    if lo <= e < hi {
      ElementOfRun(shape, box, lo, e - lo);
    }
    if ElementInBox(shape, box, e) {
      RankInRun(shape, box, lo, e);
    }
  }

  lemma ElementOfRun(shape: Dims, box: ShardBox, lo: nat, q: nat)
    requires BoxInShape(box, shape) && IsRun(shape, box, lo) && q < Product(box.size)
    ensures lo + q < Product(shape) && ElementInBox(shape, box, lo + q)
  {
    LocalOfGlobalElement(shape, box, q);
    RowMajorOfUnravel(box.size, q);
    assert GlobalElement(shape, box, q) == lo + q;
  }

  lemma RankInRun(shape: Dims, box: ShardBox, lo: nat, e: nat)
    requires BoxInShape(box, shape) && IsRun(shape, box, lo) && e < Product(shape) && ElementInBox(shape, box, e)
    ensures e == lo + LocalElement(shape, box, e)
  {
    var local := ToLocal(Unravel(shape, e), box);
    RowMajorOfUnravel(shape, e);
    assert RowMajor(shape, Plus(box.offset, local)) == lo + RowMajor(box.size, local);
  }

  lemma RangeOfQuotient(b: nat, es: nat, lo: nat, hi: nat)
    requires es > 0
    ensures lo * es <= b < hi * es <==> lo <= b / es < hi
    ensures b == (b / es) * es + b % es
  {
    var q := b / es;
    assert b == q * es + b % es;
    StrictlyLess(q, lo, es);
    StrictlyLess(q, hi, es);
    if lo <= q { MulMonotone(lo, q, es); }
    if hi <= q { MulMonotone(hi, q, es); }
  }

  lemma Scale(a: nat, b: nat, n: nat)
    ensures (a + b) * n == a * n + b * n
  {
  }

  // ----- reading

  /** Source file handles that one reader thread has opened. */
  class ReaderHandles {
    /** Whether the backend's reads neither fail nor end early. */
    const reliable: bool
    var byPath: map<string, Stream>
    /** The streams opened so far. */
    ghost var streams: set<Stream>

    constructor (reliable: bool)
      ensures this.reliable == reliable && byPath == map[] && streams == {}
    {
      this.reliable := reliable;
      byPath := map[];
      streams := {};
    }

    /** Open handles read the stored files, and their seeks land where asked. */
    ghost predicate Valid(storage: Storage)
      reads this
    {
      forall path :: path in byPath ==> byPath[path] in streams && Opens(byPath[path], path, storage)
    }

    ghost predicate Opens(stream: Stream, path: string, storage: Storage) {
      path in storage && stream.content == storage[path] && stream.exactSeek && stream.reliable == reliable
    }

    method Open(storage: Storage, path: string) returns (r: Result<Stream, ReadFailure>)
      requires Valid(storage)
      modifies this
      ensures Valid(storage)
      ensures fresh(streams - old(streams))
      ensures r.Ok? ==> path in byPath && r.value == byPath[path] && r.value in streams && Opens(r.value, path, storage)
      ensures r.Ok? <==> path in storage
      ensures r.Err? ==> r.error == MissingFile(path)
    {
      if path in byPath {
        return Ok(byPath[path]);
      }
      if path !in storage {
        return Err(MissingFile(path));
      }
      var stream := new Stream(storage[path], true, reliable);
      byPath := byPath[path := stream];
      streams := streams + {stream};
      return Ok(stream);
    }
  }

  predicate AddressInFile(address: ByteAddress, content: seq<byte>) {
    address.start <= address.end <= |content|
  }

  /** Reads as many bytes as are addressed into buffer[lo..hi], from where the seek lands,
      or fails. Where it lands is not checked. */
  method ReadTensorDataInto(stream: Stream, address: ByteAddress, buffer: array<byte>, lo: nat, hi: nat)
    returns (r: Result<(), ReadFailure>, ghost landed: nat)
    requires lo <= hi <= buffer.Length
    modifies stream, buffer
    ensures stream.exactSeek ==> landed == address.start
    ensures r == Err(SizeMismatch) <==> hi - lo != address.NumBytes()
    ensures r.Err? ==> r.error.SizeMismatch? || r.error.Unreadable?
    ensures stream.exactSeek && stream.reliable && hi - lo == address.NumBytes() && (lo < hi ==> AddressInFile(address, stream.content)) ==> r.Ok?
    ensures r.Ok? && lo < hi ==>
      landed + (hi - lo) <= |stream.content| && buffer[lo..hi] == stream.content[landed..landed + (hi - lo)]
    ensures forall i :: 0 <= i < buffer.Length && !(lo <= i < hi) ==> buffer[i] == old(buffer[i])
  {
    landed := address.start;
    if hi - lo != address.NumBytes() {
      return Err(SizeMismatch), landed;
    }
    var position := stream.Seek(address.start);
    landed := position;
    var bytesRead: nat := 0;
    while bytesRead < hi - lo
      invariant bytesRead <= hi - lo
      invariant stream.pos == landed + bytesRead
      invariant bytesRead > 0 ==> stream.pos <= |stream.content|
      invariant forall i :: lo <= i < lo + bytesRead ==> buffer[i] == stream.content[landed + (i - lo)]
      invariant forall i :: 0 <= i < buffer.Length && !(lo <= i < hi) ==> buffer[i] == old(buffer[i])
      decreases hi - lo - bytesRead
    {
      var count := stream.ReadInto(buffer, lo + bytesRead, hi);
      if count.Err? {
        return Err(Unreadable(count.error)), landed;
      }
      if count.value == 0 {
        return Err(Unreadable(EofError)), landed;
      }
      bytesRead := bytesRead + count.value;
    }
    if lo < hi {
      SameRange(buffer[..], lo, hi, stream.content, landed);
      assert buffer[lo..hi] == buffer[..][lo..hi];
    }
    return Ok(()), landed;
  }

  lemma SameRange(a: seq<byte>, lo: nat, hi: nat, b: seq<byte>, start: nat)
    requires lo <= hi <= |a| && start + (hi - lo) <= |b| && forall i :: lo <= i < hi ==> a[i] == b[start + (i - lo)]
    ensures a[lo..hi] == b[start..start + (hi - lo)]
  {
    forall k | 0 <= k < hi - lo ensures a[lo..hi][k] == b[start..start + (hi - lo)][k] {
      assert a[lo + k] == b[start + k];
    }
  }

  method ReadTensorData(stream: Stream, address: ByteAddress) returns (r: Result<seq<byte>, ReadFailure>, ghost landed: nat)
    modifies stream
    ensures stream.exactSeek ==> landed == address.start
    ensures r == Err(SizeMismatch) <==> address.NumBytes() < 0
    ensures r.Err? ==> r.error.SizeMismatch? || r.error.Unreadable?
    ensures stream.exactSeek && stream.reliable && (address.NumBytes() == 0 || AddressInFile(address, stream.content)) ==> r.Ok?
    ensures r.Ok? ==> |r.value| == address.NumBytes()
    ensures r.Ok? && |r.value| > 0 ==>
      landed + |r.value| <= |stream.content| && r.value == stream.content[landed..landed + |r.value|]
  {
    landed := address.start;
    if address.NumBytes() < 0 {
      return Err(SizeMismatch), landed;
    }
    var data := new byte[address.NumBytes()];
    var read;
    read, landed := ReadTensorDataInto(stream, address, data, 0, data.Length);
    if read.Err? {
      return Err(read.error), landed;
    }
    assert data[..] == data[0..data.Length];
    return Ok(data[..]), landed;
  }

  /** The stored bytes at an address. */
  function BytesAt(address: ByteAddress, storage: Storage): seq<byte> {
    if address.path in storage && AddressInFile(address, storage[address.path])
    then storage[address.path][address.start..address.end] else []
  }

  /** The stored bytes a slice addresses. */
  function SliceBytes(s: SerializedSlice, storage: Storage): seq<byte> {
    BytesAt(s.address, storage)
  }

  /** The address is readable and as long as the slice's elements. */
  predicate HoldsPackedBox(s: SerializedSlice, storage: Storage) {
    |SliceBytes(s, storage)| == Product(s.box.size) * s.elementSize
  }

  predicate AllPacked(slices: seq<SerializedSlice>, storage: Storage) {
    forall i :: 0 <= i < |slices| ==> HoldsPackedBox(slices[i], storage)
  }

  /** Later slices overwrite earlier ones; bytes no slice covers keep their old value. */
  ghost function AssembledByte(slices: seq<SerializedSlice>, storage: Storage, shape: Dims, es: nat, b: nat, initial: byte): byte
    requires OneTensor(slices, shape, es) && AllPacked(slices, storage) && b < Product(shape) * es
  {
    if slices == [] then initial
    else
      var last := slices[|slices| - 1];
      assert DescribesTensor(last, shape, es) && HoldsPackedBox(last, storage);
      if ByteInBox(shape, last.box, es, b) then SliceBytes(last, storage)[LocalByte(shape, last.box, es, b)]
      else AssembledByte(slices[..|slices| - 1], storage, shape, es, b, initial)
  }

  ghost predicate Assembled(slices: seq<SerializedSlice>, storage: Storage, shape: Dims, es: nat, before: seq<byte>, after: seq<byte>) {
    && OneTensor(slices, shape, es) && AllPacked(slices, storage)
    && |before| == |after| == Product(shape) * es
    && forall b :: 0 <= b < |after| ==> after[b] == AssembledByte(slices, storage, shape, es, b, before[b])
  }

  lemma AssembleNext(slices: seq<SerializedSlice>, s: SerializedSlice, storage: Storage, shape: Dims, es: nat,
                     before: seq<byte>, middle: seq<byte>, after: seq<byte>)
    requires Assembled(slices, storage, shape, es, before, middle)
    requires DescribesTensor(s, shape, es) && HoldsPackedBox(s, storage)
    requires Pasted(shape, s.box, es, SliceBytes(s, storage), middle, after)
    ensures Assembled(slices + [s], storage, shape, es, before, after)
  {
    var all := slices + [s];
    assert all[..|all| - 1] == slices;
  }

  /** The byte range of a slice reported as contiguous, empty ones included. */
  predicate ByteRange(shape: Dims, box: ShardBox, es: nat, lo: nat, hi: nat)
    requires BoxInShape(box, shape)
  {
    var range := ContiguousElementRange(shape, box);
    range.Some? && lo == range.value.0 * es && hi == range.value.1 * es
  }

  lemma ByteOfRange(shape: Dims, box: ShardBox, es: nat, lo: nat, hi: nat, b: nat)
    requires BoxInShape(box, shape) && ByteRange(shape, box, es, lo, hi) && b < Product(shape) * es
    ensures ByteInBox(shape, box, es, b) <==> lo <= b < hi
    ensures ByteInBox(shape, box, es, b) ==> LocalByte(shape, box, es, b) == b - lo
  {
    if Product(box.size) == 0 {
      NothingInEmptyBox(shape, box, es, b);
    } else {
      RunBytes(shape, box, es, b);
    }
  }

  /** A contiguous slice read into its byte range is pasted like any other. */
  lemma RangeIsPasted(shape: Dims, box: ShardBox, es: nat, data: seq<byte>, lo: nat, hi: nat, before: seq<byte>, after: seq<byte>)
    requires es > 0 && BoxInShape(box, shape) && ByteRange(shape, box, es, lo, hi)
    requires |data| == Product(box.size) * es
    requires |before| == |after| == Product(shape) * es
    requires lo <= hi <= |after| && after[lo..hi] == data
    requires forall i :: 0 <= i < |after| && !(lo <= i < hi) ==> after[i] == before[i]
    ensures Pasted(shape, box, es, data, before, after)
  {
    forall b | 0 <= b < |after|
      ensures after[b] == if ByteInBox(shape, box, es, b) then data[LocalByte(shape, box, es, b)] else before[b]
    {
      ByteOfRange(shape, box, es, lo, hi, b);
      assert lo <= b < hi ==> after[b] == after[lo..hi][b - lo];
    }
  }

  lemma RangeLength(shape: Dims, box: ShardBox, es: nat)
    requires BoxInShape(box, shape) && ContiguousElementRange(shape, box).Some?
    ensures var (lo, hi) := ContiguousElementRange(shape, box).value;
      && lo * es <= hi * es <= Product(shape) * es
      && hi * es - lo * es == Product(box.size) * es
  {
    if Product(box.size) > 0 {
      ContiguousRangeIffRun(shape, box);
    }
    var (lo, hi) := ContiguousElementRange(shape, box).value;
    ScaledRange(lo, Product(box.size), Product(shape), es);
  }

  lemma ScaledRange(lo: nat, n: nat, total: nat, es: nat)
    requires lo + n <= total
    ensures (lo + n) * es - lo * es == n * es && lo * es <= (lo + n) * es <= total * es
  {
    Scale(lo, n, es);
    MulMonotone(lo + n, total, es);
  }

  lemma NothingInEmptyBox(shape: Dims, box: ShardBox, es: nat, b: nat)
    requires BoxInShape(box, shape) && b < Product(shape) * es
    ensures ByteInBox(shape, box, es, b) ==> Product(box.size) > 0
  {
    if ByteInBox(shape, box, es, b) {
      PartsOfByte(b, es, Product(shape));
      var q := LocalElement(shape, box, b / es);
    }
  }

  /** A non-contiguous slice must come with exactly its elements' bytes, which the code
      leaves to the safetensors writer; a contiguous one is checked when it is read. */
  predicate SizedByWriter(slices: seq<SerializedSlice>) {
    forall i :: 0 <= i < |slices| ==>
      && BoxInShape(slices[i].box, slices[i].globalShape)
      && (ContiguousElementRange(slices[i].globalShape, slices[i].box).None? ==>
            slices[i].address.NumBytes() == Product(slices[i].box.size) * slices[i].elementSize)
  }

  /** The slice's file is there and holds, at its address, as many bytes as it has elements
      for; an empty slice may be addressed anywhere. */
  predicate Deliverable(s: SerializedSlice, storage: Storage) {
    && s.address.path in storage && s.address.NumBytes() == Product(s.box.size) * s.elementSize
    && (s.address.NumBytes() > 0 ==> AddressInFile(s.address, storage[s.address.path]))
  }

  predicate AllDeliverable(slices: seq<SerializedSlice>, storage: Storage) {
    forall i :: 0 <= i < |slices| ==> Deliverable(slices[i], storage)
  }

  /** One slice, by whichever of the two ways its shape allows. */
  method ReadSliceInto(s: SerializedSlice, stream: Stream, storage: Storage, buffer: array<byte>)
    returns (r: Result<(), ReadFailure>, ghost staged: nat)
    requires DescribesTensor(s, s.globalShape, s.elementSize) && SizedByWriter([s])
    requires buffer.Length == Product(s.globalShape) * s.elementSize
    requires stream.exactSeek && s.address.path in storage && stream.content == storage[s.address.path]
    modifies stream, buffer
    ensures r.Err? ==> r.error.SizeMismatch? || r.error.Unreadable?
    ensures r.Ok? ==> Deliverable(s, storage) && HoldsPackedBox(s, storage)
    ensures stream.reliable && Deliverable(s, storage) ==> r.Ok?
    ensures r.Ok? ==> Pasted(s.globalShape, s.box, s.elementSize, SliceBytes(s, storage), old(buffer[..]), buffer[..])
    ensures staged == StagedBytes(s)
  {
    assert SizedByWriter([s]) ==> [s][0] == s;
    staged := 0;
    var range := ContiguousElementRange(s.globalShape, s.box);
    if range.Some? {
      RangeLength(s.globalShape, s.box, s.elementSize);
      var lo, hi := range.value.0 * s.elementSize, range.value.1 * s.elementSize;
      ghost var landed;
      r, landed := ReadTensorDataInto(stream, s.address, buffer, lo, hi);
      if r.Ok? {
        assert buffer[lo..hi] == SliceBytes(s, storage);
        RangeIsPasted(s.globalShape, s.box, s.elementSize, SliceBytes(s, storage), lo, hi, old(buffer[..]), buffer[..]);
      }
    } else {
      var data, _ := ReadTensorData(stream, s.address);
      staged := s.address.NumBytes();
      if data.Err? {
        return Err(data.error), staged;
      }
      assert data.value == SliceBytes(s, storage);
      WriteSubTensor(buffer, data.value, s.elementSize, s.globalShape, s.box);
      return Ok(()), |data.value|;
    }
  }

  predicate Readable(slices: seq<SerializedSlice>) {
    slices != [] && OneTensor(slices, slices[0].globalShape, slices[0].elementSize) && SizedByWriter(slices)
  }

  /** Whether the slice is staged in a buffer of its own. */
  predicate IsBuffered(s: SerializedSlice) {
    BoxInShape(s.box, s.globalShape) && ContiguousElementRange(s.globalShape, s.box).None?
  }

  /** The bytes read into a buffer of their own on the way. */
  function StagedBytes(s: SerializedSlice): nat {
    if IsBuffered(s) && s.address.NumBytes() > 0 then s.address.NumBytes() else 0
  }

  /** What is staged at most at a time: slices are read one by one. */
  function MostStaged(slices: seq<SerializedSlice>): nat {
    if slices == [] then 0
    else
      var before, last := MostStaged(slices[..|slices| - 1]), StagedBytes(slices[|slices| - 1]);
      if last > before then last else before
  }

  lemma MostStagedNext(slices: seq<SerializedSlice>, n: nat)
    requires n < |slices|
    ensures var before, last := MostStaged(slices[..n]), StagedBytes(slices[n]);
      && MostStaged(slices[..n + 1]) == (if last > before then last else before)
      && MostStaged(slices[..n + 1]) <= MostStaged(slices)
  {
    assert slices[..n + 1][..n] == slices[..n];
    MostStagedPrefix(slices, n + 1);
  }

  lemma {:induction false} MostStagedPrefix(slices: seq<SerializedSlice>, n: nat)
    requires n <= |slices|
    ensures MostStaged(slices[..n]) <= MostStaged(slices)
    decreases |slices|
  {
    if n < |slices| {
      MostStagedPrefix(slices[..|slices| - 1], n);
      assert slices[..|slices| - 1][..n] == slices[..n];
    } else {
      assert slices[..n] == slices;
    }
  }

  /** One round of the loop over slices. */
  method AddSlice(slices: seq<SerializedSlice>, n: nat, storage: Storage, handles: ReaderHandles, buffer: array<byte>,
                  ghost before: seq<byte>)
    returns (r: Result<(), ReadFailure>, ghost peak: nat)
    requires Readable(slices) && n < |slices|
    requires handles.Valid(storage)
    requires Assembled(slices[..n], storage, slices[0].globalShape, slices[0].elementSize, before, buffer[..])
    modifies handles, handles.streams, buffer
    ensures handles.Valid(storage)
    ensures fresh(handles.streams - old(handles.streams))
    ensures r.Err? ==> !r.error.ScalarNeedsOneSlice?
    ensures r.Ok? && AllDeliverable(slices[..n], storage) ==> AllDeliverable(slices[..n + 1], storage)
    ensures handles.reliable && AllDeliverable(slices, storage) ==> r.Ok?
    ensures r.Ok? ==> Assembled(slices[..n + 1], storage, slices[0].globalShape, slices[0].elementSize, before, buffer[..])
    ensures peak <= MostStaged(slices) && (r.Ok? ==> peak == MostStaged(slices[..n + 1]))
  {
    var s := slices[n];
    MostStagedNext(slices, n);
    peak := MostStaged(slices[..n]);
    assert DescribesTensor(s, slices[0].globalShape, slices[0].elementSize);
    var handle := handles.Open(storage, s.address.path);
    if handle.Err? {
      return Err(handle.error), peak;
    }
    ghost var middle := buffer[..];
    ghost var staged;
    r, staged := ReadSliceInto(s, handle.value, storage, buffer);
    peak := if staged > peak then staged else peak;
    if r.Ok? {
      SliceAdded(slices, n, storage, slices[0].globalShape, slices[0].elementSize, before, middle, buffer[..]);
    }
  }

  lemma SliceAdded(slices: seq<SerializedSlice>, n: nat, storage: Storage, shape: Dims, es: nat,
                   before: seq<byte>, middle: seq<byte>, after: seq<byte>)
    requires n < |slices| && Deliverable(slices[n], storage) && Assembled(slices[..n], storage, shape, es, before, middle)
    requires DescribesTensor(slices[n], shape, es) && HoldsPackedBox(slices[n], storage)
    requires Pasted(shape, slices[n].box, es, SliceBytes(slices[n], storage), middle, after)
    ensures Assembled(slices[..n + 1], storage, shape, es, before, after)
    ensures AllDeliverable(slices[..n], storage) ==> AllDeliverable(slices[..n + 1], storage)
  {
    AssembleNext(slices[..n], slices[n], storage, shape, es, before, middle, after);
    assert slices[..n + 1] == slices[..n] + [slices[n]];
  }

  /** All slices can be read, and a scalar has one. */
  predicate CanAssemble(slices: seq<SerializedSlice>, storage: Storage)
    requires slices != []
  {
    AllDeliverable(slices, storage) && (slices[0].globalShape == [] ==> |slices| == 1)
  }

  /** Reads each slice in turn, and fails, with a reliable backend, only if it has to. */
  method ReadFullTensorInto(slices: seq<SerializedSlice>, storage: Storage, handles: ReaderHandles, buffer: array<byte>)
    returns (r: Result<(), ReadFailure>, ghost peak: nat)
    requires Readable(slices)
    requires buffer.Length == Product(slices[0].globalShape) * slices[0].elementSize
    requires handles.Valid(storage)
    modifies handles, handles.streams, buffer
    ensures handles.Valid(storage) && fresh(handles.streams - old(handles.streams))
    ensures r == Err(ScalarNeedsOneSlice) <==> slices[0].globalShape == [] && |slices| != 1
    ensures r.Ok? ==> CanAssemble(slices, storage)
    ensures handles.reliable && CanAssemble(slices, storage) ==> r.Ok?
    ensures r.Ok? ==>
      Assembled(slices, storage, slices[0].globalShape, slices[0].elementSize, old(buffer[..]), buffer[..])
    ensures peak <= MostStaged(slices) && (r.Ok? ==> peak == MostStaged(slices))
  {
    if slices[0].globalShape == [] && |slices| != 1 {
      return Err(ScalarNeedsOneSlice), 0;
    }
    r, peak := ReadSlices(slices, storage, handles, buffer);
  }

  method ReadSlices(slices: seq<SerializedSlice>, storage: Storage, handles: ReaderHandles, buffer: array<byte>)
    returns (r: Result<(), ReadFailure>, ghost peak: nat)
    requires Readable(slices)
    requires buffer.Length == Product(slices[0].globalShape) * slices[0].elementSize
    requires handles.Valid(storage)
    modifies handles, handles.streams, buffer
    ensures handles.Valid(storage) && fresh(handles.streams - old(handles.streams))
    ensures r.Err? ==> !r.error.ScalarNeedsOneSlice?
    ensures r.Ok? ==> AllDeliverable(slices, storage)
    ensures handles.reliable && AllDeliverable(slices, storage) ==> r.Ok?
    ensures r.Ok? ==>
      Assembled(slices, storage, slices[0].globalShape, slices[0].elementSize, old(buffer[..]), buffer[..])
    ensures peak <= MostStaged(slices) && (r.Ok? ==> peak == MostStaged(slices))
  {
    peak := 0;
    ghost var before := buffer[..];
    for n := 0 to |slices|
      invariant handles.Valid(storage)
      invariant fresh(handles.streams - old(handles.streams))
      invariant Assembled(slices[..n], storage, slices[0].globalShape, slices[0].elementSize, before, buffer[..])
      invariant AllDeliverable(slices[..n], storage)
      invariant peak == MostStaged(slices[..n])
    {
      r, peak := AddSlice(slices, n, storage, handles, buffer, before);
      if r.Err? {
        return;
      }
    }
    assert slices[..|slices|] == slices;
    return Ok(()), peak;
  }

  /** The full tensor in a zeroed buffer. `peak` is the memory this takes: the buffer and
      what is staged beside it. */
  method ReadFullTensor(slices: seq<SerializedSlice>, storage: Storage, handles: ReaderHandles)
    returns (r: Result<seq<byte>, ReadFailure>, ghost peak: nat)
    requires Readable(slices)
    requires handles.Valid(storage)
    modifies handles, handles.streams
    ensures handles.Valid(storage) && fresh(handles.streams - old(handles.streams))
    ensures r.Ok? ==> CanAssemble(slices, storage)
    ensures handles.reliable && CanAssemble(slices, storage) ==> r.Ok?
    ensures r.Ok? ==> |r.value| == Product(slices[0].globalShape) * slices[0].elementSize
    ensures r.Ok? ==>
      Assembled(slices, storage, slices[0].globalShape, slices[0].elementSize, seq(|r.value|, _ => 0), r.value)
    ensures peak <= Product(slices[0].globalShape) * slices[0].elementSize + MostStaged(slices)
    ensures r.Ok? ==> peak == |r.value| + MostStaged(slices)
  {
    var buffer := new byte[Product(slices[0].globalShape) * slices[0].elementSize](_ => 0);
    assert buffer[..] == seq(buffer.Length, _ => 0);
    var read;
    ghost var staged;
    read, staged := ReadFullTensorInto(slices, storage, handles, buffer);
    peak := buffer.Length + staged;
    if read.Err? {
      return Err(read.error), peak;
    }
    return Ok(buffer[..]), peak;
  }

  // ----- byte exactness

  /** Every slice's file range holds that slice's part of the tensor g, row-major. */
  ghost predicate HoldPartsOf(slices: seq<SerializedSlice>, storage: Storage, shape: Dims, es: nat, g: seq<byte>)
    requires OneTensor(slices, shape, es)
  {
    |g| == Product(shape) * es && forall i :: 0 <= i < |slices| ==> HoldsPartOf(slices[i], storage, shape, es, g)
  }

  ghost predicate HoldsPartOf(s: SerializedSlice, storage: Storage, shape: Dims, es: nat, g: seq<byte>)
    requires DescribesTensor(s, shape, es) && |g| == Product(shape) * es
  {
    HoldsPackedBox(s, storage) ==> BytesArePart(SliceBytes(s, storage), s.box, shape, es, g)
  }

  /** These are the box's bytes of the tensor g, row-major. */
  ghost predicate BytesArePart(data: seq<byte>, box: ShardBox, shape: Dims, es: nat, g: seq<byte>)
    requires BoxInShape(box, shape) && es > 0 && |g| == Product(shape) * es && |data| == Product(box.size) * es
  {
    forall b :: 0 <= b < |g| && ByteInBox(shape, box, es, b) ==> data[LocalByte(shape, box, es, b)] == g[b]
  }

  ghost predicate Covered(slices: seq<SerializedSlice>, shape: Dims, es: nat, b: nat)
    requires b < Product(shape) * es
  {
    exists i :: 0 <= i < |slices| && ByteInBox(shape, slices[i].box, es, b)
  }

  lemma CoveredByLast(slices: seq<SerializedSlice>, shape: Dims, es: nat, b: nat)
    requires slices != [] && b < Product(shape) * es
    ensures Covered(slices, shape, es, b) <==>
      ByteInBox(shape, slices[|slices| - 1].box, es, b) || Covered(slices[..|slices| - 1], shape, es, b)
  {
    var n := |slices| - 1;
    if Covered(slices[..n], shape, es, b) {
      var i :| 0 <= i < n && ByteInBox(shape, slices[..n][i].box, es, b);
      assert ByteInBox(shape, slices[i].box, es, b);
    }
    if Covered(slices, shape, es, b) {
      var i :| 0 <= i < |slices| && ByteInBox(shape, slices[i].box, es, b);
      assert i < n ==> slices[..n][i] == slices[i];
    }
  }

  lemma {:induction false} AssembledFromParts(slices: seq<SerializedSlice>, storage: Storage, shape: Dims, es: nat,
                                              g: seq<byte>, b: nat, initial: byte)
    requires OneTensor(slices, shape, es) && AllPacked(slices, storage) && HoldPartsOf(slices, storage, shape, es, g)
    requires b < |g|
    ensures AssembledByte(slices, storage, shape, es, b, initial) == if Covered(slices, shape, es, b) then g[b] else initial
  {
    if slices != [] {
      var last := slices[|slices| - 1];
      assert HoldsPartOf(last, storage, shape, es, g) && HoldsPackedBox(last, storage);
      CoveredByLast(slices, shape, es, b);
      AssembledFromParts(slices[..|slices| - 1], storage, shape, es, g, b, initial);
    }
  }

  predicate CoverShape(slices: seq<SerializedSlice>, shape: Dims) {
    forall e: nat :: e < Product(shape) ==> ElementCovered(slices, shape, e)
  }

  predicate ElementCovered(slices: seq<SerializedSlice>, shape: Dims, e: nat)
    requires e < Product(shape)
  {
    exists i :: 0 <= i < |slices| && ElementInBox(shape, slices[i].box, e)
  }

  lemma CoveredByElement(slices: seq<SerializedSlice>, shape: Dims, es: nat, b: nat)
    requires b < Product(shape) * es
    ensures es > 0 && b / es < Product(shape)
    ensures Covered(slices, shape, es, b) <==> ElementCovered(slices, shape, b / es)
  {
    PartsOfByte(b, es, Product(shape));
    if ElementCovered(slices, shape, b / es) {
      var i :| 0 <= i < |slices| && ElementInBox(shape, slices[i].box, b / es);
      assert ByteInBox(shape, slices[i].box, es, b);
    }
  }

  /** Consolidation is byte exact: if every slice holds its part of g, the result is g
      with zero bytes exactly where no slice reaches, whichever mix of direct and
      element-wise reads was taken. */
  lemma AssembledBytes(slices: seq<SerializedSlice>, storage: Storage, shape: Dims, es: nat, g: seq<byte>, result: seq<byte>)
    requires Assembled(slices, storage, shape, es, seq(|result|, _ => 0), result)
    requires HoldPartsOf(slices, storage, shape, es, g)
    ensures |result| == |g|
    ensures forall b :: 0 <= b < |g| ==> result[b] == if Covered(slices, shape, es, b) then g[b] else 0
  {
    forall b | 0 <= b < |g| ensures result[b] == if Covered(slices, shape, es, b) then g[b] else 0 {
      AssembledFromParts(slices, storage, shape, es, g, b, 0);
    }
  }

  /** If the slices cover the shape the result is the global tensor. */
  lemma CoveringSlicesGiveTensor(slices: seq<SerializedSlice>, storage: Storage, shape: Dims, es: nat, g: seq<byte>, result: seq<byte>)
    requires Assembled(slices, storage, shape, es, seq(|result|, _ => 0), result)
    requires HoldPartsOf(slices, storage, shape, es, g) && CoverShape(slices, shape)
    ensures result == g
  {
    AssembledBytes(slices, storage, shape, es, g, result);
    forall b | 0 <= b < |g| ensures Covered(slices, shape, es, b) {
      CoveredByElement(slices, shape, es, b);
    }
  }
}
