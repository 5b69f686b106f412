/**
 Source tensors inside checkpoint files, and the two ways of reading a slice of one:
 slicing the whole tensor, or reading one byte span and viewing it with the source
 strides (default_resharder.py, _slice_source_tensor and _read_source_tensor_slice).
 */
module SourceFiles {
  import opened Wrappers
  import opened Geometry
  import opened LoadPlans
  import opened Streams

  /** The bytes of one tensor element. */
  type Element = seq<byte>

  /** A strided tensor over a storage; `checkpointOffset` is where the storage starts in
      the file, if the file format records it. */
  datatype SourceTensor = SourceTensor(shape: Dims, strides: Dims, storageOffset: nat, elementSize: nat,
                                       storage: seq<byte>, checkpointOffset: Option<nat>)

  /** `sound` says that streams on the file seek where asked, and that their reads neither
      fail nor end early. */
  datatype SourceFile = SourceFile(content: seq<byte>, offsetReadable: bool, sound: bool, tensors: map<string, SourceTensor>)

  datatype LoadError = BadSlice | NotImplemented | MissingFile | MissingTensor | ReadFailed(cause: ReadError)

  /** Every element of the tensor lies in its storage. */
  ghost predicate ValidTensor(t: SourceTensor) {
    && |t.strides| == |t.shape| && t.elementSize > 0
    && forall idx :: InShape(idx, t.shape) ==> ElementEnd(t, idx) <= |t.storage|
  }

  function ElementStart(t: SourceTensor, idx: Dims): nat
    requires |idx| == |t.strides|
  {
    (t.storageOffset + Dot(idx, t.strides)) * t.elementSize
  }

  function ElementEnd(t: SourceTensor, idx: Dims): nat
    requires |idx| == |t.strides|
  {
    ElementStart(t, idx) + t.elementSize
  }

  /** A recorded checkpoint offset locates the storage in the file. */
  ghost predicate Located(t: SourceTensor, content: seq<byte>) {
    t.checkpointOffset.Some? ==>
      var c := t.checkpointOffset.value;
      c + |t.storage| <= |content| && content[c..c + |t.storage|] == t.storage
  }

  ghost predicate ValidFile(f: SourceFile) {
    forall fqn :: fqn in f.tensors ==> ValidTensor(f.tensors[fqn]) && Located(f.tensors[fqn], f.content)
  }

  ghost function ElementAt(t: SourceTensor, idx: Dims): Element
    requires ValidTensor(t) && InShape(idx, t.shape)
  {
    t.storage[ElementStart(t, idx)..ElementEnd(t, idx)]
  }

  /** Python slicing clamps silently, so the code checks the bounds first. */
  predicate SliceInBounds(t: SourceTensor, p: LoadPlan) {
    |p.srcOffsets| == |p.srcSizes| == |t.shape|
    && forall d :: 0 <= d < |t.shape| ==> p.srcOffsets[d] + p.srcSizes[d] <= t.shape[d]
  }

  /** The elements of the planned slice in row-major order. */
  ghost function SliceElements(t: SourceTensor, p: LoadPlan): (r: seq<Element>)
    requires ValidTensor(t) && SliceInBounds(t, p)
    ensures |r| == Product(p.srcSizes)
  {
    seq(Product(p.srcSizes), q requires 0 <= q < Product(p.srcSizes) =>
      SliceIndexInShape(t, p, Unravel(p.srcSizes, q));
      ElementAt(t, Plus(p.srcOffsets, Unravel(p.srcSizes, q))))
  }

  lemma SliceIndexInShape(t: SourceTensor, p: LoadPlan, local: Dims)
    requires SliceInBounds(t, p) && InShape(local, p.srcSizes)
    ensures InShape(Plus(p.srcOffsets, local), t.shape)
  {
  }

  /** Slicing the fully loaded tensor. */
  method SliceSourceTensor(t: SourceTensor, p: LoadPlan) returns (r: Result<seq<Element>, LoadError>)
    requires ValidTensor(t)
    ensures r.Ok? <==> SliceInBounds(t, p)
    ensures r.Ok? ==> r.value == SliceElements(t, p)
    ensures r.Err? ==> r.error == BadSlice
  {
    if !SliceInBounds(t, p) {
      return Err(BadSlice);
    }
    var elements: seq<Element> := [];
    for q := 0 to Product(p.srcSizes)
      invariant |elements| == q
      invariant forall i :: 0 <= i < q ==> elements[i] == SliceElements(t, p)[i]
    {
      var idx := Plus(p.srcOffsets, Unravel(p.srcSizes, q));
      SliceIndexInShape(t, p, Unravel(p.srcSizes, q));
      elements := elements + [t.storage[ElementStart(t, idx)..ElementEnd(t, idx)]];
    }
    return Ok(elements);
  }

  // ----- offset reads

  /** First element of the slice, counted from the start of the storage. */
  function FirstElement(t: SourceTensor, p: LoadPlan): nat
    requires |p.srcOffsets| == |t.strides|
  {
    t.storageOffset + Dot(p.srcOffsets, t.strides)
  }

  /** Elements from the first wanted one through the last. */
  function Span(t: SourceTensor, p: LoadPlan): nat
    requires |p.srcSizes| == |t.strides| && forall d :: 0 <= d < |p.srcSizes| ==> p.srcSizes[d] > 0
  {
    1 + Dot(LastIndex(p.srcSizes), t.strides)
  }

  predicate HasEmptyDimension(p: LoadPlan) {
    exists d :: 0 <= d < |p.srcSizes| && p.srcSizes[d] == 0
  }

  /** The span ends inside the storage. */
  lemma SpanInsideStorage(t: SourceTensor, p: LoadPlan)
    requires ValidTensor(t) && SliceInBounds(t, p) && !HasEmptyDimension(p)
    ensures (FirstElement(t, p) + Span(t, p)) * t.elementSize <= |t.storage|
  {
    var last := Plus(p.srcOffsets, LastIndex(p.srcSizes));
    SliceIndexInShape(t, p, LastIndex(p.srcSizes));
    DotPlus(p.srcOffsets, LastIndex(p.srcSizes), t.strides);
    assert FirstElement(t, p) + Span(t, p) == t.storageOffset + Dot(last, t.strides) + 1;
    Distribute(t.storageOffset + Dot(last, t.strides), t.elementSize);
  }

  lemma Distribute(a: nat, n: nat)
    ensures (a + 1) * n == a * n + n
  {
  }

  /** For a densely packed source the span never exceeds the tensor's element count. */
  lemma ContiguousSpanBounded(t: SourceTensor, p: LoadPlan)
    requires SliceInBounds(t, p) && !HasEmptyDimension(p) && t.strides == Strides(t.shape)
    ensures Span(t, p) <= Product(t.shape)
  {
    forall d | 0 <= d < |t.shape| ensures t.shape[d] > 0 {
      assert p.srcOffsets[d] + p.srcSizes[d] <= t.shape[d] && p.srcSizes[d] != 0;
    }
    DotMonotone(LastIndex(p.srcSizes), LastIndex(t.shape), t.strides);
    LastIndexIsLast(t.shape);
  }

  /** An element of the slice, found in the span by its own strides. */
  lemma SpanElement(t: SourceTensor, p: LoadPlan, local: Dims)
    requires ValidTensor(t) && SliceInBounds(t, p) && !HasEmptyDimension(p) && InShape(local, p.srcSizes)
    ensures Dot(local, t.strides) < Span(t, p)
    ensures (Dot(local, t.strides) + 1) * t.elementSize <= Span(t, p) * t.elementSize
    ensures ElementStart(t, Plus(p.srcOffsets, local)) == FirstElement(t, p) * t.elementSize + Dot(local, t.strides) * t.elementSize
  {
    DotMonotone(local, LastIndex(p.srcSizes), t.strides);
    MulMonotone(Dot(local, t.strides) + 1, Span(t, p), t.elementSize);
    DotPlus(p.srcOffsets, local, t.strides);
    var e := t.elementSize;
    assert (FirstElement(t, p) + Dot(local, t.strides)) * e == FirstElement(t, p) * e + Dot(local, t.strides) * e;
  }

  /** The bytes from the first wanted element of the storage through the last. */
  ghost function SpanBytes(t: SourceTensor, p: LoadPlan): seq<byte>
    requires ValidTensor(t) && SliceInBounds(t, p) && !HasEmptyDimension(p)
  {
    SpanInsideStorage(t, p);
    Scale(FirstElement(t, p), Span(t, p), t.elementSize);
    t.storage[FirstElement(t, p) * t.elementSize..FirstElement(t, p) * t.elementSize + Span(t, p) * t.elementSize]
  }

  lemma ElementInSpan(t: SourceTensor, p: LoadPlan, local: Dims) returns (at: nat)
    requires ValidTensor(t) && SliceInBounds(t, p) && !HasEmptyDimension(p) && InShape(local, p.srcSizes)
    ensures InShape(Plus(p.srcOffsets, local), t.shape)
    ensures at == Dot(local, t.strides) * t.elementSize && at + t.elementSize <= |SpanBytes(t, p)|
    ensures SpanBytes(t, p)[at..at + t.elementSize] == ElementAt(t, Plus(p.srcOffsets, local))
  {
    at := Dot(local, t.strides) * t.elementSize;
    SliceIndexInShape(t, p, local);
    SpanElement(t, p, local);
    Distribute(Dot(local, t.strides), t.elementSize);
    SpanInsideStorage(t, p);
    Scale(FirstElement(t, p), Span(t, p), t.elementSize);
  }

  /** View packed bytes with the source strides. */
  method ViewStrided(packed: array<byte>, t: SourceTensor, p: LoadPlan) returns (elements: seq<Element>)
    requires ValidTensor(t) && SliceInBounds(t, p) && !HasEmptyDimension(p)
    requires packed[..] == SpanBytes(t, p)
    ensures elements == SliceElements(t, p)
  {
    elements := [];
    for q := 0 to Product(p.srcSizes)
      invariant |elements| == q
      invariant forall i :: 0 <= i < q ==> elements[i] == SliceElements(t, p)[i]
    {
      var local := Unravel(p.srcSizes, q);
      ghost var inSpan := ElementInSpan(t, p, local);
      var at := Dot(local, t.strides) * t.elementSize;
      assert at == inSpan;
      var element := packed[at..at + t.elementSize];
      assert element == packed[..][at..at + t.elementSize];
      elements := elements + [element];
    }
  }

  /** Reading the span and viewing it with the source strides gives the same elements as
      slicing the full tensor; it fails where slicing fails, where the format records no
      offset, or where the stream fails. */
  method ReadSourceTensorSlice(stream: Stream, t: SourceTensor, p: LoadPlan) returns (r: Result<seq<Element>, LoadError>)
    requires ValidTensor(t) && Located(t, stream.content)
    modifies stream
    ensures r.Ok? ==> SliceInBounds(t, p) && r.value == SliceElements(t, p)
    ensures r == Err(BadSlice) <==> !SliceInBounds(t, p)
    ensures r == Err(NotImplemented) <==> SliceInBounds(t, p) && !HasEmptyDimension(p) && t.checkpointOffset.None?
    ensures r.Err? ==> r.error.BadSlice? || r.error.NotImplemented? || r.error.ReadFailed?
    ensures r.Err? && r.error.ReadFailed? ==> !(stream.exactSeek && stream.reliable)
  {
    if !SliceInBounds(t, p) {
      return Err(BadSlice);
    }
    if HasEmptyDimension(p) {
      ProductPositive(p.srcSizes);
      return Ok([]);
    }
    if t.checkpointOffset.None? {
      return Err(NotImplemented);
    }
    var first := FirstElement(t, p) * t.elementSize;
    var length := Span(t, p) * t.elementSize;
    SpanInsideStorage(t, p);
    Scale(FirstElement(t, p), Span(t, p), t.elementSize);
    var packed := new byte[length];
    assert t.checkpointOffset.value + first + length <= |stream.content|;
    var read := ReadExact(stream, t.checkpointOffset.value + first, packed);
    if read.Err? {
      return Err(ReadFailed(read.error));
    }
    SubRange(stream.content, t.checkpointOffset.value, t.storage, first, length);
    var elements := ViewStrided(packed, t, p);
    return Ok(elements);
  }

  lemma Scale(a: nat, b: nat, n: nat)
    ensures (a + b) * n == a * n + b * n
  {
  }

  lemma SubRange<T>(content: seq<T>, c: nat, part: seq<T>, at: nat, n: nat)
    requires c + |part| <= |content| && content[c..c + |part|] == part && at + n <= |part|
    ensures content[c + at..c + at + n] == part[at..at + n]
  {
    forall i | at <= i < at + n ensures content[c + i] == part[i] {
      assert content[c..c + |part|][i] == part[i];
    }
  }
}
