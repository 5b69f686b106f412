/**
 Device meshes: which coordinate each rank has (dtensor_metadata.py, DeviceMeshSpec and
 _rank_coordinates).
 */
module Mesh {
  import opened Wrappers
  import opened Geometry
  import opened Sorting
  import opened LoadPlans

  datatype MeshSpec = MeshSpec(meshShape: Dims, meshData: seq<Rank>, dimNames: Option<seq<string>>)

  datatype MeshError = WrongCount | DuplicateRanks | WrongNames

  predicate ValidMesh(m: MeshSpec) {
    && |m.meshData| == Product(m.meshShape) && AllDistinct(m.meshData)
    && (m.dimNames.Some? ==> |m.dimNames.value| == |m.meshShape|)
  }

  function Elements(s: seq<Rank>): set<Rank> { set r | r in s }

  /** The set of a sequence is as large as the sequence exactly if no element repeats. */
  lemma {:induction false} SetSizeIffDistinct(s: seq<Rank>)
    ensures |Elements(s)| <= |s|
    ensures |Elements(s)| == |s| <==> AllDistinct(s)
  {
    if s != [] {
      var n := |s| - 1;
      var rest := Elements(s[..n]);
      SetSizeIffDistinct(s[..n]);
      assert s == s[..n] + [s[n]];
      if s[n] in rest {
        assert Elements(s) == rest;
        var i :| 0 <= i < n && s[..n][i] == s[n];
        assert s[i] == s[n];
      } else {
        assert Elements(s) == rest + {s[n]};
        assert AllDistinct(s[..n]) ==> AllDistinct(s);
      }
    }
  }

  method Validate(m: MeshSpec) returns (r: Result<(), MeshError>)
    ensures r.Ok? <==> ValidMesh(m)
  {
    if |m.meshData| != Product(m.meshShape) {
      return Err(WrongCount);
    }
    SetSizeIffDistinct(m.meshData);
    if |Elements(m.meshData)| != |m.meshData| {
      return Err(DuplicateRanks);
    }
    if m.dimNames.Some? && |m.dimNames.value| != |m.meshShape| {
      return Err(WrongNames);
    }
    return Ok(());
  }

  // ----- itertools.product over the ranges of a shape

  /** The first k values of the leading dimension, each in front of all inner positions. */
  function Blocks(k: nat, inner: seq<Dims>): seq<Dims> {
    if k == 0 then [] else Blocks(k - 1, inner) + seq(|inner|, i requires 0 <= i < |inner| => [k - 1] + inner[i])
  }

  function Positions(shape: Dims): seq<Dims> {
    if shape == [] then [[]] else Blocks(shape[0], Positions(shape[1..]))
  }

  lemma {:induction false} BlocksAt(k: nat, inner: seq<Dims>, p: nat)
    requires p < k * |inner|
    ensures |Blocks(k, inner)| == k * |inner| && |inner| > 0
    ensures Blocks(k, inner)[p] == [p / |inner|] + inner[p % |inner|]
  {
    BlocksLength(k, inner);
    BlocksLength(k - 1, inner);
    var n := |inner|;
    assert k * n == (k - 1) * n + n;
    if p < (k - 1) * n {
      BlocksAt(k - 1, inner, p);
    } else {
      DivModUnique(k - 1, p - (k - 1) * n, n);
    }
  }

  lemma {:induction false} BlocksLength(k: nat, inner: seq<Dims>)
    ensures |Blocks(k, inner)| == k * |inner|
  {
    if k > 0 {
      BlocksLength(k - 1, inner);
      assert k * |inner| == (k - 1) * |inner| + |inner|;
    }
  }

  /** The product enumerates the multi-indices in row-major order. */
  lemma {:induction false} PositionsAreRowMajor(shape: Dims, p: nat)
    ensures |Positions(shape)| == Product(shape)
    ensures p < Product(shape) ==> Positions(shape)[p] == Unravel(shape, p)
  {
    if shape != [] {
      var inner := Positions(shape[1..]);
      PositionsAreRowMajor(shape[1..], if |inner| > 0 then p % |inner| else 0);
      BlocksLength(shape[0], inner);
      if p < Product(shape) {
        BlocksAt(shape[0], inner, p);
      }
    }
  }

  /** The first n ranks have the coordinates at their places in the mesh, and no other
      rank has one. */
  ghost predicate Zipped(coordinates: map<Rank, Dims>, m: MeshSpec, n: nat)
    requires ValidMesh(m) && n <= |m.meshData|
  {
    && coordinates.Keys == Elements(m.meshData[..n])
    && forall i: nat :: i < n ==> CoordinateAt(coordinates, m, i)
  }

  ghost predicate CoordinateAt(coordinates: map<Rank, Dims>, m: MeshSpec, i: nat)
    requires ValidMesh(m) && i < |m.meshData|
  {
    m.meshData[i] in coordinates && coordinates[m.meshData[i]] == Unravel(m.meshShape, i)
  }

  lemma ZipNext(coordinates: map<Rank, Dims>, m: MeshSpec, n: nat)
    requires ValidMesh(m) && n < |m.meshData| && Zipped(coordinates, m, n)
    ensures Zipped(coordinates[m.meshData[n] := Unravel(m.meshShape, n)], m, n + 1)
  {
    var next := coordinates[m.meshData[n] := Unravel(m.meshShape, n)];
    assert m.meshData[..n + 1] == m.meshData[..n] + [m.meshData[n]];
    forall i: nat | i < n + 1 ensures CoordinateAt(next, m, i) {
      assert i < n ==> CoordinateAt(coordinates, m, i);
    }
  }

  /** Each rank's coordinate, by zipping the ranks with the positions. */
  method RankCoordinates(m: MeshSpec) returns (coordinates: map<Rank, Dims>)
    requires ValidMesh(m)
    ensures Zipped(coordinates, m, |m.meshData|)
  {
    var positions := Positions(m.meshShape);
    PositionsAreRowMajor(m.meshShape, 0);
    coordinates := map[];
    for i := 0 to |m.meshData|
      invariant Zipped(coordinates, m, i)
    {
      PositionsAreRowMajor(m.meshShape, i);
      ZipNext(coordinates, m, i);
      coordinates := coordinates[m.meshData[i] := positions[i]];
    }
  }

  /** Every coordinate of the mesh belongs to exactly one rank. */
  lemma CoordinatesAreBijective(m: MeshSpec, coordinates: map<Rank, Dims>, c: Dims) returns (rank: Rank)
    requires ValidMesh(m) && InShape(c, m.meshShape) && Zipped(coordinates, m, |m.meshData|)
    ensures rank in coordinates && coordinates[rank] == c
    ensures forall r :: r in coordinates && coordinates[r] == c ==> r == rank
  {
    var p := RowMajor(m.meshShape, c);
    UnravelOfRowMajor(m.meshShape, c);
    rank := m.meshData[p];
    assert CoordinateAt(coordinates, m, p);
    assert m.meshData[..|m.meshData|] == m.meshData;
    forall r | r in coordinates && coordinates[r] == c ensures r == rank {
      var i :| 0 <= i < |m.meshData| && m.meshData[i] == r;
      assert CoordinateAt(coordinates, m, i);
      RowMajorOfUnravel(m.meshShape, i);
    }
  }
}
