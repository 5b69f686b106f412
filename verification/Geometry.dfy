/**
 Row-major geometry of N-dimensional tensors: shapes, strides, multi-indices,
 boxes, and the test that tells whether a box is one contiguous run of elements.

 A multi-index is a sequence with one entry per dimension; the empty sequence is
 the single multi-index of a 0-dimensional tensor.
 */
module Geometry {
  import opened Wrappers

  type Dims = seq<nat>

  function Product(s: Dims): nat {
    if s == [] then 1 else s[0] * Product(s[1..])
  }

  /** The inner product of an index with strides. */
  function Dot(a: Dims, b: Dims): nat
    requires |a| == |b|
  {
    if a == [] then 0 else a[0] * b[0] + Dot(a[1..], b[1..])
  }

  /** Strides of a densely packed tensor: the product of the later extents. */
  function Strides(shape: Dims): (r: Dims)
    ensures |r| == |shape|
  {
    if shape == [] then [] else [Product(shape[1..])] + Strides(shape[1..])
  }

  function Plus(a: Dims, b: Dims): (r: Dims)
    requires |a| == |b|
    ensures |r| == |a|
  {
    seq(|a|, d requires 0 <= d < |a| => a[d] + b[d])
  }

  predicate InShape(idx: Dims, shape: Dims) {
    |idx| == |shape| && forall d :: 0 <= d < |shape| ==> idx[d] < shape[d]
  }

  /** Position of a multi-index in row-major order. */
  function RowMajor(shape: Dims, idx: Dims): nat
    requires |idx| == |shape|
  {
    Dot(idx, Strides(shape))
  }

  /** The multi-index at a row-major position. */
  function Unravel(shape: Dims, p: nat): (idx: Dims)
    requires p < Product(shape)
    ensures InShape(idx, shape)
  {
    if shape == [] then []
    else
      var inner := Product(shape[1..]);
      DivModBounds(p, shape[0], inner);
      [p / inner] + Unravel(shape[1..], p % inner)
  }

  lemma DivModBounds(p: nat, n: nat, inner: nat)
    requires p < n * inner
    ensures inner > 0 && 0 <= p / inner < n && 0 <= p % inner < inner
  {
    assert inner > 0;
  }

  lemma MulMonotone(a: nat, b: nat, c: nat)
    requires a <= b
    ensures a * c <= b * c
  {
  }

  // ----- row-major order is a bijection between the indices of a shape and [0, product)

  lemma {:induction false} RowMajorBound(shape: Dims, idx: Dims)
    requires InShape(idx, shape)
    ensures RowMajor(shape, idx) < Product(shape)
  {
    if shape != [] {
      var inner := Product(shape[1..]);
      RowMajorBound(shape[1..], idx[1..]);
      assert RowMajor(shape, idx) == idx[0] * inner + RowMajor(shape[1..], idx[1..]);
      MulMonotone(idx[0] + 1, shape[0], inner);
      assert (idx[0] + 1) * inner == idx[0] * inner + inner;
    }
  }

  lemma {:induction false} UnravelOfRowMajor(shape: Dims, idx: Dims)
    requires InShape(idx, shape)
    ensures RowMajor(shape, idx) < Product(shape)
    ensures Unravel(shape, RowMajor(shape, idx)) == idx
  {
    RowMajorBound(shape, idx);
    if shape != [] {
      var inner := Product(shape[1..]);
      var rest := RowMajor(shape[1..], idx[1..]);
      RowMajorBound(shape[1..], idx[1..]);
      UnravelOfRowMajor(shape[1..], idx[1..]);
      assert RowMajor(shape, idx) == idx[0] * inner + rest;
      DivModUnique(idx[0], rest, inner);
    } else {
      assert idx == [];
    }
  }

  lemma DivModUnique(q: nat, r: nat, n: nat)
    requires r < n
    ensures (q * n + r) / n == q && (q * n + r) % n == r
  {
    var p := q * n + r;
    assert p == n * (p / n) + p % n;
    StrictlyLess(p / n, q, n);
    StrictlyLess(q, p / n, n);
  }

  lemma StrictlyLess(a: nat, b: nat, n: nat)
    ensures a < b ==> a * n + n <= b * n
  {
    if a < b {
      MulMonotone(a + 1, b, n);
      assert (a + 1) * n == a * n + n;
    }
  }

  lemma RowMajorStep(shape: Dims, idx: Dims)
    requires |idx| == |shape| > 0
    ensures RowMajor(shape, idx) == idx[0] * Product(shape[1..]) + RowMajor(shape[1..], idx[1..])
  {
  }

  /** The first coordinate and the position inside what it leaves. */
  lemma UnravelStep(shape: Dims, p: nat) returns (q: nat, rest: nat)
    requires p < Product(shape) && shape != []
    ensures p == q * Product(shape[1..]) + rest && rest < Product(shape[1..])
    ensures Unravel(shape, p)[0] == q && Unravel(shape, p)[1..] == Unravel(shape[1..], rest)
  {
    var inner := Product(shape[1..]);
    DivModBounds(p, shape[0], inner);
    q, rest := p / inner, p % inner;
  }

  lemma {:induction false} RowMajorOfUnravel(shape: Dims, p: nat)
    requires p < Product(shape)
    ensures RowMajor(shape, Unravel(shape, p)) == p
  {
    if shape != [] {
      var q, rest := UnravelStep(shape, p);
      RowMajorOfUnravel(shape[1..], rest);
      RowMajorStep(shape, Unravel(shape, p));
    }
  }

  /** Row-major positions of distinct indices of a shape are distinct. */
  lemma RowMajorInjective(shape: Dims, a: Dims, b: Dims)
    requires InShape(a, shape) && InShape(b, shape)
    requires RowMajor(shape, a) == RowMajor(shape, b)
    ensures a == b
  {
    UnravelOfRowMajor(shape, a);
    UnravelOfRowMajor(shape, b);
  }

  lemma {:induction false} DotPlus(a: Dims, b: Dims, s: Dims)
    requires |a| == |b| == |s|
    ensures Dot(Plus(a, b), s) == Dot(a, s) + Dot(b, s)
  {
    if a != [] {
      DotPlus(a[1..], b[1..], s[1..]);
      assert Plus(a, b)[1..] == Plus(a[1..], b[1..]);
      assert (a[0] + b[0]) * s[0] == a[0] * s[0] + b[0] * s[0];
    }
  }

  /** Inner products grow with the index. */
  lemma {:induction false} DotMonotone(a: Dims, b: Dims, s: Dims)
    requires |a| == |b| == |s|
    requires forall d :: 0 <= d < |a| ==> a[d] <= b[d]
    ensures Dot(a, s) <= Dot(b, s)
  {
    if a != [] {
      DotMonotone(a[1..], b[1..], s[1..]);
      MulMonotone(a[0], b[0], s[0]);
    }
  }

  lemma {:induction false} ProductPositive(shape: Dims)
    ensures Product(shape) > 0 <==> forall d :: 0 <= d < |shape| ==> shape[d] > 0
  {
    if shape != [] {
      ProductPositive(shape[1..]);
      if Product(shape) > 0 {
        assert shape[0] > 0 && Product(shape[1..]) > 0;
        forall d | 0 <= d < |shape| ensures shape[d] > 0 {
          if d > 0 { assert shape[d] == shape[1..][d - 1]; }
        }
      } else if forall d :: 0 <= d < |shape| ==> shape[d] > 0 {
        forall d | 0 <= d < |shape[1..]| ensures shape[1..][d] > 0 {
          assert shape[1..][d] == shape[d + 1];
        }
        MulPositive(shape[0], Product(shape[1..]));
      }
    }
  }

  lemma MulPositive(a: nat, b: nat)
    requires a > 0 && b > 0
    ensures a * b > 0
  {
  }

  lemma {:induction false} ProductMonotone(a: Dims, b: Dims)
    requires |a| == |b| && forall d :: 0 <= d < |a| ==> a[d] <= b[d]
    ensures Product(a) <= Product(b)
  {
    if a != [] {
      ProductMonotone(a[1..], b[1..]);
      MulMonotone(a[0], b[0], Product(a[1..]));
      MulMonotone(Product(a[1..]), Product(b[1..]), b[0]);
    }
  }

  // ----- contiguous_strides, as the loop that fills a list from the last dimension

  lemma {:induction false} StridesAt(shape: Dims, d: nat)
    requires d < |shape|
    ensures Strides(shape)[d] == Product(shape[d + 1..])
  {
    if d > 0 {
      StridesAt(shape[1..], d - 1);
      assert shape[1..][d..] == shape[d + 1..];
    }
  }

  method ContiguousStrides(shape: Dims) returns (strides: Dims)
    ensures strides == Strides(shape)
  {
    strides := seq(|shape|, _ => 0);
    var stride := 1;
    var dimension: int := |shape| - 1;
    while dimension >= 0
      invariant -1 <= dimension < |shape| == |strides|
      invariant stride == Product(shape[dimension + 1..])
      invariant forall d :: dimension < d < |shape| ==> strides[d] == Product(shape[d + 1..])
    {
      assert shape[dimension..][1..] == shape[dimension + 1..];
      strides := strides[dimension := stride];
      stride := stride * shape[dimension];
      dimension := dimension - 1;
    }
    forall d: nat | d < |shape| ensures strides[d] == Strides(shape)[d] {
      StridesAt(shape, d);
    }
  }

  // ----- boxes

  /** A region of a tensor: where it starts and how far it extends. */
  datatype Box = Box(offset: Dims, size: Dims)

  predicate WellFormedBox(b: Box) {
    |b.offset| == |b.size|
  }

  predicate InBox(idx: Dims, b: Box) {
    && |idx| == |b.offset| == |b.size|
    && forall d :: 0 <= d < |idx| ==> b.offset[d] <= idx[d] < b.offset[d] + b.size[d]
  }

  predicate BoxInShape(b: Box, shape: Dims) {
    && |b.offset| == |b.size| == |shape|
    && forall d :: 0 <= d < |shape| ==> b.offset[d] + b.size[d] <= shape[d]
  }

  /** Coordinates inside a box, from coordinates of the tensor it lies in. */
  function ToLocal(idx: Dims, b: Box): (r: Dims)
    requires InBox(idx, b)
    ensures InShape(r, b.size) && Plus(b.offset, r) == idx
  {
    seq(|idx|, d requires 0 <= d < |idx| => idx[d] - b.offset[d])
  }

  lemma PlusInBox(b: Box, local: Dims)
    requires WellFormedBox(b) && InShape(local, b.size)
    ensures InBox(Plus(b.offset, local), b)
    ensures ToLocal(Plus(b.offset, local), b) == local
  {
    assert ToLocal(Plus(b.offset, local), b) == local;
  }

  lemma InBoxInShape(b: Box, shape: Dims, idx: Dims)
    requires BoxInShape(b, shape) && InBox(idx, b)
    ensures InShape(idx, shape)
  {
  }

  // ----- TensorSlice.contiguous_global_element_range

  /** The last index of a non-empty box, relative to its start. */
  function LastIndex(size: Dims): (r: Dims)
    requires forall d :: 0 <= d < |size| ==> size[d] > 0
    ensures InShape(r, size)
  {
    seq(|size|, d requires 0 <= d < |size| => size[d] - 1)
  }

  /** The half-open range of row-major positions a box fills, if its first and last
      elements are exactly as far apart as its element count says. */
  function ContiguousElementRange(shape: Dims, b: Box): Option<(nat, nat)>
    requires BoxInShape(b, shape)
  {
    var count := Product(b.size);
    if count == 0 then Some((0, 0))
    else
      ProductPositive(b.size);
      var start := Dot(b.offset, Strides(shape));
      var last := Dot(Plus(b.offset, LastIndex(b.size)), Strides(shape));
      if last - start + 1 != count then None else Some((start, start + count))
  }

  /** Every element of the box sits at `start` plus its row-major rank in the box. */
  ghost predicate IsRun(shape: Dims, b: Box, start: int)
    requires BoxInShape(b, shape)
  {
    forall local :: InShape(local, b.size) ==>
      RowMajor(shape, Plus(b.offset, local)) == start + RowMajor(b.size, local)
  }

  /** Strides that agree wherever the box has more than one element. */
  predicate SameWhereLong(size: Dims, s: Dims, t: Dims)
    requires |size| == |s| == |t|
  {
    forall d :: 0 <= d < |size| ==> size[d] <= 1 || s[d] == t[d]
  }

  lemma {:induction false} SameDots(size: Dims, s: Dims, t: Dims, local: Dims)
    requires |size| == |s| == |t| && InShape(local, size)
    requires SameWhereLong(size, s, t)
    ensures Dot(local, s) == Dot(local, t)
  {
    if size != [] {
      assert SameWhereLong(size[1..], s[1..], t[1..]);
      SameDots(size[1..], s[1..], t[1..], local[1..]);
    }
  }

  lemma LastDotStep(size: Dims, s: Dims)
    requires |size| == |s| > 0 && forall d :: 0 <= d < |size| ==> size[d] > 0
    ensures Dot(LastIndex(size), s) == s[0] * (size[0] - 1) + Dot(LastIndex(size[1..]), s[1..])
  {
    assert LastIndex(size)[1..] == LastIndex(size[1..]);
  }

  lemma FirstTerms(a: nat, b: nat, n: nat)
    requires a <= b
    ensures a * n <= b * n && (a * n == b * n ==> n == 0 || a == b)
  {
    MulMonotone(a, b, n);
    StrictlyLess(a, b, n);
  }

  lemma SameWhereLongStep(size: Dims, s: Dims, t: Dims)
    requires |size| == |s| == |t| > 0 && SameWhereLong(size[1..], s[1..], t[1..]) && (size[0] <= 1 || s[0] == t[0])
    ensures SameWhereLong(size, s, t)
  {
    forall d | 0 <= d < |size| ensures size[d] <= 1 || s[d] == t[d] {
      if d > 0 { assert size[d] == size[1..][d - 1] && s[d] == s[1..][d - 1] && t[d] == t[1..][d - 1]; }
    }
  }

  /** The global strides dominate the box's own strides, so equal distances between
      first and last elements force equal strides in every long dimension. */
  lemma {:induction false} EqualSpansForceStrides(size: Dims, s: Dims, t: Dims)
    requires |size| == |s| == |t|
    requires forall d :: 0 <= d < |size| ==> size[d] > 0 && s[d] <= t[d]
    ensures Dot(LastIndex(size), s) <= Dot(LastIndex(size), t)
    ensures Dot(LastIndex(size), s) == Dot(LastIndex(size), t) ==> SameWhereLong(size, s, t)
  {
    if size != [] {
      EqualSpansForceStrides(size[1..], s[1..], t[1..]);
      LastDotStep(size, s);
      LastDotStep(size, t);
      FirstTerms(s[0], t[0], size[0] - 1);
      if Dot(LastIndex(size), s) == Dot(LastIndex(size), t) {
        SameWhereLongStep(size, s, t);
      }
    }
  }

  lemma {:induction false} StridesDominate(size: Dims, shape: Dims)
    requires |size| == |shape| && forall d :: 0 <= d < |size| ==> size[d] <= shape[d]
    ensures forall d :: 0 <= d < |size| ==> Strides(size)[d] <= Strides(shape)[d]
  {
    forall d: nat | d < |size| ensures Strides(size)[d] <= Strides(shape)[d] {
      StridesAt(size, d);
      StridesAt(shape, d);
      ProductMonotone(size[d + 1..], shape[d + 1..]);
    }
  }

  lemma {:induction false} LastIndexIsLast(size: Dims)
    requires forall d :: 0 <= d < |size| ==> size[d] > 0
    ensures RowMajor(size, LastIndex(size)) + 1 == Product(size)
  {
    if size != [] {
      LastIndexIsLast(size[1..]);
      assert LastIndex(size)[1..] == LastIndex(size[1..]);
      var inner := Product(size[1..]);
      assert RowMajor(size, LastIndex(size)) == (size[0] - 1) * inner + RowMajor(size[1..], LastIndex(size[1..]));
      assert (size[0] - 1) * inner + inner == size[0] * inner;
    }
  }

  /** If the first and last elements are as far apart as in the box itself, the box is a run. */
  lemma EqualSpansGiveRun(shape: Dims, b: Box)
    requires BoxInShape(b, shape) && forall d :: 0 <= d < |b.size| ==> b.size[d] > 0
    requires Dot(LastIndex(b.size), Strides(shape)) == Dot(LastIndex(b.size), Strides(b.size))
    ensures IsRun(shape, b, Dot(b.offset, Strides(shape)))
  {
    StridesDominate(b.size, shape);
    EqualSpansForceStrides(b.size, Strides(b.size), Strides(shape));
    forall local | InShape(local, b.size)
      ensures RowMajor(shape, Plus(b.offset, local)) == Dot(b.offset, Strides(shape)) + RowMajor(b.size, local)
    {
      DotPlus(b.offset, local, Strides(shape));
      SameDots(b.size, Strides(b.size), Strides(shape), local);
    }
  }

  /** A run starts where the box does, and its last element is as far on as in the box. */
  lemma RunHasEqualSpans(shape: Dims, b: Box, start: int)
    requires BoxInShape(b, shape) && IsRun(shape, b, start) && forall d :: 0 <= d < |b.size| ==> b.size[d] > 0
    ensures Dot(LastIndex(b.size), Strides(shape)) == Dot(LastIndex(b.size), Strides(b.size))
  {
    var zero: Dims := seq(|shape|, _ => 0);
    assert InShape(zero, b.size) && Plus(b.offset, zero) == b.offset;
    DotZero(zero, Strides(b.size));
    assert RowMajor(shape, b.offset) == start;
    assert RowMajor(shape, Plus(b.offset, LastIndex(b.size))) == start + RowMajor(b.size, LastIndex(b.size));
    DotPlus(b.offset, LastIndex(b.size), Strides(shape));
  }

  /** A non-empty box is reported as a range exactly when it is one contiguous run,
      and then the range is where the run lies. */
  lemma ContiguousRangeIffRun(shape: Dims, b: Box)
    requires BoxInShape(b, shape) && Product(b.size) > 0
    ensures ContiguousElementRange(shape, b).Some? <==> exists start :: IsRun(shape, b, start)
    ensures ContiguousElementRange(shape, b).Some? ==>
      var (lo, hi) := ContiguousElementRange(shape, b).value;
      hi == lo + Product(b.size) <= Product(shape) && IsRun(shape, b, lo)
  {
    ProductPositive(b.size);
    var last := LastIndex(b.size);
    DotPlus(b.offset, last, Strides(shape));
    LastIndexIsLast(b.size);
    if ContiguousElementRange(shape, b).Some? {
      EqualSpansGiveRun(shape, b);
      RowMajorBound(shape, Plus(b.offset, last));
    }
    if s :| IsRun(shape, b, s) {
      RunHasEqualSpans(shape, b, s);
    }
  }

  lemma {:induction false} DotZero(z: Dims, s: Dims)
    requires |z| == |s| && forall d :: 0 <= d < |z| ==> z[d] == 0
    ensures Dot(z, s) == 0
  {
    if z != [] { DotZero(z[1..], s[1..]); }
  }
}
