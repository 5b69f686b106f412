/** Which source shard fills which part of the target (resharding_utils.py). */
module ChunkWinners {
  import opened Wrappers
  import opened Geometry
  import opened LoadPlans
  import opened ReshardingUtils

  // A chunk is known by where it starts in the target. Of the shards that start the same
  // chunk only one is read, so what a load delivers depends on the winners alone.

  /** Where the common part of a shard and the target starts. */
  function Corner(box: ShardBox, target: ShardBox): (c: Dims)
    ensures |c| == |box.offset|
  {
    seq(|box.offset|, d requires 0 <= d < |box.offset| =>
      if d < |target.offset| && box.offset[d] < target.offset[d] then target.offset[d] else box.offset[d])
  }

  /** Source i is read for its chunk: no other source starts the same chunk from a lower
      rank, or from the same rank further down the list. */
  predicate Wins(sources: seq<Shard>, target: ShardBox, i: nat)
    requires i < |sources|
  {
    forall j :: 0 <= j < |sources| && Corner(sources[j].1, target) == Corner(sources[i].1, target) ==>
      sources[i].0 < sources[j].0 || (sources[i].0 == sources[j].0 && j <= i)
  }

  ghost predicate InWinner(sources: seq<Shard>, target: ShardBox, idx: Dims) {
    exists i :: 0 <= i < |sources| && Wins(sources, target, i) && InBox(idx, sources[i].1)
  }

  /** Every target index lies in a shard that wins its chunk. This can be told from the
      source metadata and the target box, before anything is planned or read. */
  ghost predicate WinnersCover(groups: seq<Group>, target: ShardBox) {
    forall idx :: InBox(idx, target) ==> InWinner(Sources(groups, target, {}), target, idx)
  }

  // ----- chunks and plans

  lemma CornerIsShared(box: ShardBox, target: ShardBox, idx: Dims)
    requires InBox(idx, box) && InBox(idx, target)
    ensures InBox(Corner(box, target), box) && InBox(Corner(box, target), target)
    ensures forall d :: 0 <= d < |idx| ==> Corner(box, target)[d] <= idx[d]
  {
  }

  /** A plan starts at its chunk's corner. */
  lemma PlanStartsAtCorner(rank: Rank, box: ShardBox, target: ShardBox, fqn: string)
    requires PlanFor(rank, box, target, fqn).Some?
    ensures var p := PlanFor(rank, box, target, fqn).value;
      |p.offsets| == |target.offset| && Plus(target.offset, p.offsets) == Corner(box, target)
    ensures Meets(box, target) && InBox(Corner(box, target), box) && InBox(Corner(box, target), target)
  {
    PlanForFits(rank, box, target, fqn);
    var moved := Moved(PlanFor(rank, box, target, fqn).value, target);
    PlanMovesIntersection(rank, box, target, fqn, moved.offset);
    assert InBox(moved.offset, moved);
    CornerIsShared(box, target, moved.offset);
    PlanMovesIntersection(rank, box, target, fqn, Corner(box, target));
    assert moved.offset == Corner(box, target);
  }

  lemma SameOffsetsIffSameCorner(sources: seq<Shard>, plans: seq<LoadPlan>, target: ShardBox, fqn: string, i: nat, j: nat)
    requires ReadsFrom(sources, plans, target, fqn, {}) && i < |plans| && j < |plans|
    ensures plans[i].offsets == plans[j].offsets <==> Corner(sources[i].1, target) == Corner(sources[j].1, target)
    ensures plans[i].srcRank == sources[i].0
  {
    PlanStartsAtCorner(sources[i].0, sources[i].1, target, fqn);
    PlanStartsAtCorner(sources[j].0, sources[j].1, target, fqn);
    PlanForFits(sources[i].0, sources[i].1, target, fqn);
    if Corner(sources[i].1, target) == Corner(sources[j].1, target) {
      SamePlus(target.offset, plans[i].offsets, plans[j].offsets);
    }
  }

  lemma SamePlus(a: Dims, b: Dims, c: Dims)
    requires |a| == |b| == |c| && Plus(a, b) == Plus(a, c)
    ensures b == c
  {
    forall d | 0 <= d < |b| ensures b[d] == c[d] {
      assert Plus(a, b)[d] == Plus(a, c)[d];
    }
  }

  /** The selected plans are those of the winners. */
  lemma SelectedAreWinners(sources: seq<Shard>, plans: seq<LoadPlan>, sel: seq<LoadPlan>, target: ShardBox, fqn: string, p: LoadPlan)
    requires ReadsFrom(sources, plans, target, fqn, {}) && Selects(sel, plans)
    ensures p in sel <==> exists i :: 0 <= i < |plans| && plans[i] == p && Wins(sources, target, i)
  {
    if p in sel {
      assert Chosen(p, plans);
      var i: nat :| i < |plans| && LastAt(plans, i, p.offsets, p.srcRank) && plans[i] == p;
      LastWins(sources, plans, target, fqn, i);
    }
    if i: nat :| i < |plans| && plans[i] == p && Wins(sources, target, i) {
      assert HasSource(sel, p.offsets);
      var s :| s in sel && s.offsets == p.offsets;
      assert Chosen(s, plans);
      var j: nat :| j < |plans| && LastAt(plans, j, s.offsets, s.srcRank) && plans[j] == s;
      SameOffsetsIffSameCorner(sources, plans, target, fqn, i, j);
      SameOffsetsIffSameCorner(sources, plans, target, fqn, j, i);
      assert i == j;
    }
  }

  lemma LastWins(sources: seq<Shard>, plans: seq<LoadPlan>, target: ShardBox, fqn: string, i: nat)
    requires ReadsFrom(sources, plans, target, fqn, {}) && i < |plans|
    requires LastAt(plans, i, plans[i].offsets, plans[i].srcRank)
    requires forall q :: q in plans && q.offsets == plans[i].offsets ==> plans[i].srcRank <= q.srcRank
    ensures Wins(sources, target, i)
  {
    forall j | 0 <= j < |sources| && Corner(sources[j].1, target) == Corner(sources[i].1, target)
      ensures sources[i].0 < sources[j].0 || (sources[i].0 == sources[j].0 && j <= i)
    {
      SameOffsetsIffSameCorner(sources, plans, target, fqn, i, j);
      SameOffsetsIffSameCorner(sources, plans, target, fqn, j, i);
      assert plans[j] in plans;
    }
  }

  /** Every chunk that some source starts has a winner. */
  lemma {:induction false} ChunkHasWinner(sources: seq<Shard>, target: ShardBox, m: nat) returns (i: nat)
    requires m < |sources|
    ensures i < |sources| && Wins(sources, target, i) && Corner(sources[i].1, target) == Corner(sources[m].1, target)
    decreases sources[m].0, |sources| - m
  {
    if Wins(sources, target, m) {
      i := m;
    } else {
      var j: nat :| j < |sources| && Corner(sources[j].1, target) == Corner(sources[m].1, target)
        && !(sources[m].0 < sources[j].0 || (sources[m].0 == sources[j].0 && j <= m));
      i := ChunkHasWinner(sources, target, j);
    }
  }

  // ----- sources that lose nothing

  /** Source shards are pairwise the same box or disjoint, and cover the shape. */
  ghost predicate Tiles(groups: seq<Group>, shape: Dims) {
    && (forall r: Rank, b: ShardBox, r': Rank, b': ShardBox :: Holds(groups, r, b) && Holds(groups, r', b') ==> SameOrDisjoint(b, b'))
    && (forall idx :: InShape(idx, shape) ==> Covered(groups, idx))
  }

  ghost predicate SameOrDisjoint(a: ShardBox, b: ShardBox) {
    a == b || forall idx :: !(InBox(idx, a) && InBox(idx, b))
  }

  ghost predicate Covered(groups: seq<Group>, idx: Dims) {
    exists r: Rank, b: ShardBox :: Holds(groups, r, b) && InBox(idx, b)
  }

  /** A group's boxes cut each dimension into intervals of which any two are the same or
      have nothing in common, and together the boxes cover the shape. The boxes of a whole
      mesh with unstrided placements are such a grid. */
  ghost predicate CoveringGrid(g: Group, shape: Dims) {
    && (forall r: Rank, r': Rank, a: ShardBox, b: ShardBox, d: nat :: GroupHolds(g, r, a) && GroupHolds(g, r', b) && d < |a.offset| && d < |b.offset| ==> SameOrApart(a, b, d))
    && (forall idx :: InShape(idx, shape) ==> GroupCovers(g, idx))
  }

  predicate SameOrApart(a: ShardBox, b: ShardBox, d: nat)
    requires d < |a.offset| && d < |b.offset|
  {
    || (a.offset[d] == b.offset[d] && a.size[d] == b.size[d])
    || a.offset[d] + a.size[d] <= b.offset[d] || b.offset[d] + b.size[d] <= a.offset[d]
    || a.size[d] == 0 || b.size[d] == 0
  }

  ghost predicate GroupCovers(g: Group, idx: Dims) {
    exists r: Rank, b: ShardBox :: GroupHolds(g, r, b) && InBox(idx, b)
  }

  ghost predicate CoveringGrids(groups: seq<Group>, shape: Dims) {
    groups != [] && forall k :: 0 <= k < |groups| ==> CoveringGrid(groups[k], shape)
  }

  /** The groups tile the tensor together, or each of them covers it with a grid of its
      own, however the grids of different groups overlap. */
  ghost predicate CompleteSources(groups: seq<Group>, shape: Dims) {
    Tiles(groups, shape) || CoveringGrids(groups, shape)
  }

  /** A held shard that shares an index with the target is among the sources. */
  lemma HeldIsSource(groups: seq<Group>, target: ShardBox, fqn: string, r: Rank, b: ShardBox, idx: Dims) returns (m: nat)
    requires PathPlans(groups, target, fqn, {}).Ok? && PathPlans(groups, target, fqn, {}).value.Some?
    requires Holds(groups, r, b) && InBox(idx, b) && InBox(idx, target)
    ensures m < |Sources(groups, target, {})| && Sources(groups, target, {})[m].1 == b
  {
    PathPlansOrigins(groups, target, fqn, {});
    PlanMovesIntersection(r, b, target, fqn, idx);
    assert Meets(b, target);
    m :| 0 <= m < |Sources(groups, target, {})| && Sources(groups, target, {})[m].1 == b;
  }

  /** When the shards tile the tensor, every source wins its chunk. */
  lemma TilesAllWin(groups: seq<Group>, shape: Dims, target: ShardBox, fqn: string, i: nat)
    requires PathPlans(groups, target, fqn, {}).Ok? && PathPlans(groups, target, fqn, {}).value.Some?
    requires Tiles(groups, shape) && i < |Sources(groups, target, {})|
    ensures Wins(Sources(groups, target, {}), target, i)
  {
    var sources := Sources(groups, target, {});
    PathPlansOrigins(groups, target, fqn, {});
    forall j | 0 <= j < |sources| && Corner(sources[j].1, target) == Corner(sources[i].1, target) ensures i == j {
      assert sources[i] in sources && sources[j] in sources;
      PlanStartsAtCorner(sources[i].0, sources[i].1, target, fqn);
      PlanStartsAtCorner(sources[j].0, sources[j].1, target, fqn);
      assert SameOrDisjoint(sources[i].1, sources[j].1);
    }
  }

  lemma TilesCover(groups: seq<Group>, shape: Dims, target: ShardBox, fqn: string)
    requires PathPlans(groups, target, fqn, {}).Ok? && PathPlans(groups, target, fqn, {}).value.Some?
    requires Tiles(groups, shape) && BoxInShape(target, shape)
    ensures WinnersCover(groups, target)
  {
    forall idx | InBox(idx, target) ensures InWinner(Sources(groups, target, {}), target, idx) {
      InBoxInShape(target, shape, idx);
      assert Covered(groups, idx);
      var r: Rank, b: ShardBox :| Holds(groups, r, b) && InBox(idx, b);
      var m := HeldIsSource(groups, target, fqn, r, b, idx);
      TilesAllWin(groups, shape, target, fqn, m);
    }
  }

  /** How far an index lies from a corner before it. */
  function Distance(idx: Dims, corner: Dims): nat
    requires |idx| == |corner| && forall d :: 0 <= d < |idx| ==> corner[d] <= idx[d]
  {
    if idx == [] then 0 else idx[0] - corner[0] + Distance(idx[1..], corner[1..])
  }

  lemma {:induction false} LaterCornerIsNearer(idx: Dims, a: Dims, b: Dims)
    requires |idx| == |a| == |b| && forall d :: 0 <= d < |idx| ==> a[d] <= b[d] <= idx[d]
    ensures Distance(idx, b) <= Distance(idx, a)
    ensures a != b ==> Distance(idx, b) < Distance(idx, a)
  {
    if idx != [] {
      LaterCornerIsNearer(idx[1..], a[1..], b[1..]);
      if a[0] == b[0] && a != b { assert a == [a[0]] + a[1..] && b == [b[0]] + b[1..]; }
    }
  }

  /** In a grid, the cell of an index that another cell with an earlier corner misses starts
      its chunk later. */
  lemma CellStartsLater(g: Group, shape: Dims, target: ShardBox, r: Rank, won: ShardBox, r': Rank, cell: ShardBox, idx: Dims)
    requires CoveringGrid(g, shape) && GroupHolds(g, r, won) && GroupHolds(g, r', cell)
    requires InBox(idx, target) && InBox(idx, cell) && !InBox(idx, won)
    requires InBox(Corner(won, target), won) && InBox(Corner(won, target), target)
    requires forall d :: 0 <= d < |idx| ==> Corner(won, target)[d] <= idx[d]
    ensures |Corner(won, target)| == |Corner(cell, target)| == |idx|
    ensures forall d :: 0 <= d < |idx| ==> Corner(won, target)[d] <= Corner(cell, target)[d] <= idx[d]
    ensures Corner(won, target) != Corner(cell, target)
  {
    CornerIsShared(cell, target, idx);
    forall d | 0 <= d < |idx|
      ensures Corner(won, target)[d] <= Corner(cell, target)[d]
      ensures !(won.offset[d] <= idx[d] < won.offset[d] + won.size[d]) ==> Corner(won, target)[d] < Corner(cell, target)[d]
    {
      assert SameOrApart(won, cell, d);
    }
  }

  /** If the winner of a chunk misses an index past its corner, the winner's group has a
      cell with that index that starts its chunk nearer to it. */
  lemma NearerCell(groups: seq<Group>, shape: Dims, target: ShardBox, r: Rank, won: ShardBox, idx: Dims)
    returns (r': Rank, next: ShardBox)
    requires CoveringGrids(groups, shape) && InShape(idx, shape) && InBox(idx, target)
    requires Holds(groups, r, won) && !InBox(idx, won)
    requires InBox(Corner(won, target), won) && InBox(Corner(won, target), target)
    requires forall d :: 0 <= d < |idx| ==> Corner(won, target)[d] <= idx[d]
    ensures Holds(groups, r', next) && InBox(idx, next)
    ensures |Corner(won, target)| == |Corner(next, target)| == |idx|
    ensures forall d :: 0 <= d < |idx| ==> Corner(won, target)[d] <= Corner(next, target)[d] <= idx[d]
    ensures Corner(won, target) != Corner(next, target)
  {
    var k :| 0 <= k < |groups| && GroupHolds(groups[k], r, won);
    assert CoveringGrid(groups[k], shape) && GroupCovers(groups[k], idx);
    r', next :| GroupHolds(groups[k], r', next) && InBox(idx, next);
    CellStartsLater(groups[k], shape, target, r, won, r', next, idx);
  }

  lemma {:induction false} GridsReach(groups: seq<Group>, shape: Dims, target: ShardBox, fqn: string, idx: Dims, r: Rank, cell: ShardBox)
    requires PathPlans(groups, target, fqn, {}).Ok? && PathPlans(groups, target, fqn, {}).value.Some?
    requires CoveringGrids(groups, shape) && InShape(idx, shape) && InBox(idx, target)
    requires Holds(groups, r, cell) && InBox(idx, cell)
    requires forall d :: 0 <= d < |idx| ==> Corner(cell, target)[d] <= idx[d]
    ensures InWinner(Sources(groups, target, {}), target, idx)
    decreases Distance(idx, Corner(cell, target))
  {
    var won := WinnerOfCell(groups, target, fqn, idx, r, cell);
    if !InBox(idx, won.1) {
      var r', next := NearerCell(groups, shape, target, won.0, won.1, idx);
      LaterCornerIsNearer(idx, Corner(cell, target), Corner(next, target));
      GridsReach(groups, shape, target, fqn, idx, r', next);
    }
  }

  /** The source that wins the chunk a cell starts. */
  lemma WinnerOfCell(groups: seq<Group>, target: ShardBox, fqn: string, idx: Dims, r: Rank, cell: ShardBox) returns (won: Shard)
    requires PathPlans(groups, target, fqn, {}).Ok? && PathPlans(groups, target, fqn, {}).value.Some?
    requires Holds(groups, r, cell) && InBox(idx, cell) && InBox(idx, target)
    ensures Holds(groups, won.0, won.1) && Corner(won.1, target) == Corner(cell, target)
    ensures InBox(Corner(won.1, target), won.1) && InBox(Corner(won.1, target), target)
    ensures InBox(idx, won.1) ==> InWinner(Sources(groups, target, {}), target, idx)
  {
    var sources := Sources(groups, target, {});
    var m := HeldIsSource(groups, target, fqn, r, cell, idx);
    var i := ChunkHasWinner(sources, target, m);
    won := sources[i];
    PathPlansOrigins(groups, target, fqn, {});
    assert won in sources;
    PlanStartsAtCorner(won.0, won.1, target, fqn);
  }

  /** Groups that each cover the tensor with a grid lose nothing, whatever ranks win. */
  lemma GridsCover(groups: seq<Group>, shape: Dims, target: ShardBox, fqn: string)
    requires PathPlans(groups, target, fqn, {}).Ok? && PathPlans(groups, target, fqn, {}).value.Some?
    requires CoveringGrids(groups, shape) && BoxInShape(target, shape)
    ensures WinnersCover(groups, target)
  {
    forall idx | InBox(idx, target) ensures InWinner(Sources(groups, target, {}), target, idx) {
      InBoxInShape(target, shape, idx);
      assert CoveringGrid(groups[0], shape) && GroupCovers(groups[0], idx);
      var r: Rank, cell: ShardBox :| GroupHolds(groups[0], r, cell) && InBox(idx, cell);
      CornerIsShared(cell, target, idx);
      GridsReach(groups, shape, target, fqn, idx, r, cell);
    }
  }

  lemma CompleteSourcesCover(groups: seq<Group>, shape: Dims, target: ShardBox, fqn: string)
    requires PathPlans(groups, target, fqn, {}).Ok? && PathPlans(groups, target, fqn, {}).value.Some?
    requires CompleteSources(groups, shape) && BoxInShape(target, shape)
    ensures WinnersCover(groups, target)
  {
    if Tiles(groups, shape) {
      TilesCover(groups, shape, target, fqn);
    } else {
      GridsCover(groups, shape, target, fqn);
    }
  }

  /** The source metadata brings all of the target. */
  ghost predicate Suffices(groups: seq<Group>, target: ShardBox) {
    WinnersCover(groups, target) || exists shape :: CompleteSources(groups, shape) && BoxInShape(target, shape)
  }

  lemma SufficientSourcesCover(groups: seq<Group>, target: ShardBox, fqn: string)
    requires PathPlans(groups, target, fqn, {}).Ok? && PathPlans(groups, target, fqn, {}).value.Some?
    requires Suffices(groups, target)
    ensures WinnersCover(groups, target)
  {
    if !WinnersCover(groups, target) {
      var shape :| CompleteSources(groups, shape) && BoxInShape(target, shape);
      CompleteSourcesCover(groups, shape, target, fqn);
    }
  }

  /** An incomplete group can lose data: rank 0 has the first half of four elements, its
      mesh mate's half is not listed, and rank 2 has all four. Both start the target's
      chunk, rank 0 wins it, and nothing else brings the second half. */
  lemma IncompleteGroupLosesData(groups: seq<Group>, target: ShardBox)
    requires groups == [Group(DTensor([4], "", map[0 := Box([0], [2]), 1 := Box([2], [2])], "halves"), [0]),
                        Group(DTensor([4], "", map[2 := Box([0], [4])], "whole"), [2])]
    requires target == Box([0], [4])
    ensures forall idx :: InShape(idx, [4]) ==> Covered(groups, idx)
    ensures !WinnersCover(groups, target)
  {
    var half, whole: ShardBox := Box([0], [2]), Box([0], [4]);
    forall idx | InShape(idx, [4]) ensures Covered(groups, idx) {
      assert GroupHolds(groups[1], 2, whole) && InBox(idx, whole);
      assert Holds(groups, 2, whole);
    }
    IncompleteSources(groups, target);
    var sources := Sources(groups, target, {});
    assert Corner(half, target) == Corner(whole, target);
    assert Corner(sources[0].1, target) == Corner(sources[1].1, target) && !(sources[1].0 <= sources[0].0);
    assert InBox([3], target) && !InBox([3], half);
  }

  lemma BothMeetWhole()
    ensures Meets(Box([0], [2]), Box([0], [4])) && Meets(Box([0], [4]), Box([0], [4]))
  {
    var half, whole: ShardBox := Box([0], [2]), Box([0], [4]);
    InSlicesOfBox([0], half);
    InSlicesOfBox([0], whole);
    IntersectionIsMembership(SlicesOf(half), SlicesOf(whole), [0]);
    IntersectionIsMembership(SlicesOf(whole), SlicesOf(whole), [0]);
  }

  lemma IncompleteSources(groups: seq<Group>, target: ShardBox)
    requires groups == [Group(DTensor([4], "", map[0 := Box([0], [2]), 1 := Box([2], [2])], "halves"), [0]),
                        Group(DTensor([4], "", map[2 := Box([0], [4])], "whole"), [2])]
    requires target == Box([0], [4])
    ensures Sources(groups, target, {}) == [(0, Box([0], [2])), (2, Box([0], [4]))]
  {
    var half, whole: ShardBox := Box([0], [2]), Box([0], [4]);
    assert half.size[0] != whole.size[0];
    BothMeetWhole();
    OneSource(groups[0].sharding.boxes, 0, target, {});
    OneSource(groups[1].sharding.boxes, 2, target, {half});
    assert groups[1..][0] == groups[1] && groups[1..][1..] == [];
    assert Sources([], target, {half, whole}) == [];
    assert {half} + {whole} == {half, whole} && {} + {half} == {half};
    assert Sources(groups[1..], target, {half}) == [(2, whole)] + [];
    assert Sources(groups, target, {}) == [(0, half)] + Sources(groups[1..], target, {half});
  }

  lemma OneSource(boxes: map<Rank, ShardBox>, rank: Rank, target: ShardBox, seen: set<ShardBox>)
    requires rank in boxes && boxes[rank] !in seen && Meets(boxes[rank], target)
    ensures GroupSources(boxes, [rank], target, seen) == [(rank, boxes[rank])]
    ensures SeenAfter(boxes, [rank], seen) == seen + {boxes[rank]}
  {
    assert [rank][1..] == [];
  }
}
