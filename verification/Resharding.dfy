/** Saving on one layout and loading on another: what load plans deliver. */
module Resharding {
  import opened Wrappers
  import opened Geometry
  import opened LoadPlans
  import opened ReshardingUtils
  import opened SourceFiles
  import opened LoadExecution
  import opened ChunkWinners

  /** A global tensor gives an element for every global index. */
  type GlobalTensor = Dims -> Element

  /** The part of a global tensor in a box, in row-major order. */
  ghost function Restrict(g: GlobalTensor, box: ShardBox): (r: seq<Element>)
    ensures |r| == Product(box.size)
  {
    seq(Product(box.size), q requires 0 <= q < Product(box.size) => g(Plus(box.offset, Unravel(box.size, q))))
  }

  ghost predicate TensorHolds(t: SourceTensor, box: ShardBox, g: GlobalTensor) {
    && ValidTensor(t) && t.shape == box.size
    && forall idx :: InShape(idx, box.size) ==> ElementAt(t, idx) == g(Plus(box.offset, idx))
  }

  /** Every rank a group lists has written its own part of the global tensor. */
  ghost predicate Saved(files: Files, groups: seq<Group>, fqn: string, g: GlobalTensor) {
    forall r: Rank, b: ShardBox :: Holds(groups, r, b) ==>
      r in files && fqn in files[r].tensors && TensorHolds(files[r].tensors[fqn], b, g)
  }

  function AsSet<T>(s: seq<T>): set<T> { set x | x in s }

  /** A plan copies each element to the target position of the same global index. */
  lemma PlanCopiesOwnElement(files: Files, p: LoadPlan, source: ShardBox, target: ShardBox, g: GlobalTensor, q: nat)
    requires ValidFiles(files) && PlanFits(p, source, target)
    requires p.srcRank in files && p.srcFqn in files[p.srcRank].tensors
    requires TensorHolds(files[p.srcRank].tensors[p.srcFqn], source, g)
    requires q < Product(p.sizes)
    ensures Usable(files, target.size, p)
    ensures SourceData(files, p)[q] == Restrict(g, target)[Landing(target.size, p, q)]
  {
    var local := Unravel(p.sizes, q);
    var t := files[p.srcRank].tensors[p.srcFqn];
    SliceIndexInShape(t, p, local);
    assert SourceData(files, p)[q] == ElementAt(t, Plus(p.srcOffsets, local));
    SameGlobalIndex(p, source, target, local);
    UnravelOfRowMajor(target.size, Plus(p.offsets, local));
  }

  lemma PlusAssociates(a: Dims, b: Dims, c: Dims)
    requires |a| == |b| == |c|
    ensures Plus(a, Plus(b, c)) == Plus(Plus(a, b), c)
  {
  }

  /** A local source index and the local target index it is copied to name one global index. */
  lemma SameGlobalIndex(p: LoadPlan, source: ShardBox, target: ShardBox, local: Dims)
    requires PlanFits(p, source, target) && |local| == |p.sizes|
    ensures Plus(source.offset, Plus(p.srcOffsets, local)) == Plus(target.offset, Plus(p.offsets, local))
  {
    PlusAssociates(source.offset, p.srcOffsets, local);
    PlusAssociates(target.offset, p.offsets, local);
  }

  /** These are the plans generated for a path whose groups are all DTensor metadata. */
  ghost predicate PlansOf(plans: seq<LoadPlan>, groups: seq<Group>, target: ShardBox, fqn: string) {
    PathPlans(groups, target, fqn, {}) == Ok(Some(plans))
  }

  /** When the shards tile the tensor, choosing one source per target chunk drops nothing. */
  lemma SelectionKeepsAllPlans(plans: seq<LoadPlan>, sel: seq<LoadPlan>, groups: seq<Group>, shape: Dims, target: ShardBox, fqn: string)
    requires PlansOf(plans, groups, target, fqn) && Selects(sel, plans) && Tiles(groups, shape)
    ensures AsSet(sel) == AsSet(plans)
  {
    PathPlansOrigins(groups, target, fqn, {});
    forall p ensures p in sel <==> p in plans {
      SelectedAreWinners(Sources(groups, target, {}), plans, sel, target, fqn, p);
      if p in plans {
        var i :| 0 <= i < |plans| && plans[i] == p;
        TilesAllWin(groups, shape, target, fqn, i);
      }
    }
  }

  /** A plan that moves a global index of the target lands on that index's position. */
  lemma MovedIndexIsHit(p: LoadPlan, source: ShardBox, target: ShardBox, pos: nat)
    requires PlanFits(p, source, target) && pos < Product(target.size)
    requires InBox(Plus(target.offset, Unravel(target.size, pos)), Moved(p, target))
    ensures exists q: nat :: q < Product(p.sizes) && Landing(target.size, p, q) == pos
  {
    var local := Unravel(target.size, pos);
    var inPlan := ToLocal(Plus(target.offset, local), Moved(p, target));
    UnravelOfRowMajor(p.sizes, inPlan);
    forall d | 0 <= d < |local| ensures p.offsets[d] + inPlan[d] == local[d] {
      assert Plus(Plus(target.offset, p.offsets), inPlan)[d] == Plus(target.offset, local)[d];
    }
    assert Plus(p.offsets, inPlan) == local;
    RowMajorOfUnravel(target.size, pos);
    assert Landing(target.size, p, RowMajor(p.sizes, inPlan)) == pos;
  }

  /** Conversely, a position the plan lands on stands for an index it moves. */
  lemma HitIndexIsMoved(p: LoadPlan, source: ShardBox, target: ShardBox, q: nat)
    requires PlanFits(p, source, target) && q < Product(p.sizes)
    ensures InBox(Plus(target.offset, Unravel(target.size, Landing(target.size, p, q))), Moved(p, target))
  {
    var local := Unravel(p.sizes, q);
    UnravelOfRowMajor(target.size, Plus(p.offsets, local));
    PlusAssociates(target.offset, p.offsets, local);
    PlusInBox(Moved(p, target), local);
  }

  /** The plans of a path whose sources were saved can be carried out. */
  lemma SelectedPlansAreUsable(files: Files, groups: seq<Group>, target: ShardBox, fqn: string, g: GlobalTensor,
                               plans: seq<LoadPlan>, sel: seq<LoadPlan>, p: LoadPlan)
    requires ValidFiles(files) && Saved(files, groups, fqn, g)
    requires PlansOf(plans, groups, target, fqn) && Selects(sel, plans) && p in sel
    ensures Usable(files, target.size, p)
  {
    PathPlansOrigins(groups, target, fqn, {});
    var from := Sources(groups, target, {});
    assert Chosen(p, plans);
    var i :| 0 <= i < |plans| && plans[i] == p;
    assert from[i] in from;
    PlanForFits(from[i].0, from[i].1, target, fqn);
  }

  // ----- what the selected plans bring

  /** The selected plans land on every position of the target. */
  ghost predicate CoversTarget(sel: seq<LoadPlan>, target: ShardBox) {
    && (forall p :: p in sel ==> PlanInTarget(target.size, p))
    && forall pos: nat :: pos < Product(target.size) ==> Hit(target.size, AsSet(sel), pos)
  }

  /** Every outcome of carrying out the plans is the exact part of the global tensor. */
  ghost predicate AlwaysExact(files: Files, sel: seq<LoadPlan>, target: ShardBox, g: GlobalTensor) {
    forall before, after :: Filled(files, target.size, AsSet(sel), before, after) ==> after == Restrict(g, target)
  }

  /** The selected plans cover the target exactly when the winning shards do. */
  lemma CoversIffWinnersCover(groups: seq<Group>, target: ShardBox, fqn: string, plans: seq<LoadPlan>, sel: seq<LoadPlan>)
    requires PlansOf(plans, groups, target, fqn) && Selects(sel, plans)
    ensures CoversTarget(sel, target) <==> WinnersCover(groups, target)
  {
    forall p | p in sel ensures PlanInTarget(target.size, p) {
      var _ := SelectedReads(groups, target, fqn, plans, sel, p);
    }
    if CoversTarget(sel, target) {
      forall idx | InBox(idx, target) ensures InWinner(Sources(groups, target, {}), target, idx) {
        var pos := RowMajor(target.size, ToLocal(idx, target));
        UnravelOfRowMajor(target.size, ToLocal(idx, target));
        assert Hit(target.size, AsSet(sel), pos);
        HitIsInWinner(groups, target, fqn, plans, sel, pos);
      }
    }
    if WinnersCover(groups, target) {
      forall pos: nat | pos < Product(target.size) ensures Hit(target.size, AsSet(sel), pos) {
        WinnerHits(groups, target, fqn, plans, sel, pos);
      }
    }
  }

  /** A selected plan reads a winner. */
  lemma SelectedReads(groups: seq<Group>, target: ShardBox, fqn: string, plans: seq<LoadPlan>, sel: seq<LoadPlan>, p: LoadPlan)
    returns (i: nat)
    requires PlansOf(plans, groups, target, fqn) && Selects(sel, plans) && p in sel
    ensures var sources := Sources(groups, target, {});
      i < |sources| && Wins(sources, target, i) && PlanFits(p, sources[i].1, target)
      && PlanFor(sources[i].0, sources[i].1, target, fqn) == Some(p)
  {
    var sources := Sources(groups, target, {});
    PathPlansOrigins(groups, target, fqn, {});
    SelectedAreWinners(sources, plans, sel, target, fqn, p);
    i :| 0 <= i < |plans| && plans[i] == p && Wins(sources, target, i);
    PlanForFits(sources[i].0, sources[i].1, target, fqn);
  }

  lemma HitIsInWinner(groups: seq<Group>, target: ShardBox, fqn: string, plans: seq<LoadPlan>, sel: seq<LoadPlan>, pos: nat)
    requires PlansOf(plans, groups, target, fqn) && Selects(sel, plans)
    requires forall p :: p in AsSet(sel) ==> PlanInTarget(target.size, p)
    requires pos < Product(target.size) && Hit(target.size, AsSet(sel), pos)
    ensures InWinner(Sources(groups, target, {}), target, Plus(target.offset, Unravel(target.size, pos)))
  {
    var p, q: nat :| p in AsSet(sel) && q < Product(p.sizes) && Landing(target.size, p, q) == pos;
    var i := SelectedReads(groups, target, fqn, plans, sel, p);
    var source := Sources(groups, target, {})[i];
    HitIndexIsMoved(p, source.1, target, q);
    PlanMovesIntersection(source.0, source.1, target, fqn, Plus(target.offset, Unravel(target.size, pos)));
  }

  lemma WinnerHits(groups: seq<Group>, target: ShardBox, fqn: string, plans: seq<LoadPlan>, sel: seq<LoadPlan>, pos: nat)
    requires PlansOf(plans, groups, target, fqn) && Selects(sel, plans) && WinnersCover(groups, target)
    requires forall p :: p in AsSet(sel) ==> PlanInTarget(target.size, p)
    requires pos < Product(target.size)
    ensures Hit(target.size, AsSet(sel), pos)
  {
    var sources, idx := Sources(groups, target, {}), Plus(target.offset, Unravel(target.size, pos));
    PlusInBox(target, Unravel(target.size, pos));
    assert InWinner(sources, target, idx);
    var i :| 0 <= i < |sources| && Wins(sources, target, i) && InBox(idx, sources[i].1);
    PathPlansOrigins(groups, target, fqn, {});
    SelectedAreWinners(sources, plans, sel, target, fqn, plans[i]);
    PlanMovesIntersection(sources[i].0, sources[i].1, target, fqn, idx);
    MovedIndexIsHit(plans[i], sources[i].1, target, pos);
    assert plans[i] in AsSet(sel);
  }

  /** Whatever the source shards, the load is exact if and only if the shards that win their
      chunks cover the target, which can be told from the metadata before anything is read. */
  lemma ExactIffCovered(files: Files, groups: seq<Group>, target: ShardBox, fqn: string, g: GlobalTensor,
                        plans: seq<LoadPlan>, sel: seq<LoadPlan>)
    requires ValidFiles(files) && Saved(files, groups, fqn, g)
    requires PlansOf(plans, groups, target, fqn) && Selects(sel, plans)
    ensures AlwaysExact(files, sel, target, g) <==> WinnersCover(groups, target)
  {
    CoversIffWinnersCover(groups, target, fqn, plans, sel);
    forall p | p in sel ensures Usable(files, target.size, p) {
      SelectedPlansAreUsable(files, groups, target, fqn, g, plans, sel, p);
    }
    if CoversTarget(sel, target) {
      forall before, after | Filled(files, target.size, AsSet(sel), before, after) ensures after == Restrict(g, target) {
        CoveredFillIsExact(files, groups, target, fqn, g, plans, sel, before, after);
      }
    } else {
      var hole: nat :| hole < Product(target.size) && !Hit(target.size, AsSet(sel), hole);
      UncoveredFillKeepsHole(files, groups, target, fqn, g, plans, sel, hole);
    }
  }

  /** Resharding preserves the tensor. If every source rank saved its part of a global
      tensor, and each group covers it with a grid of its own or the shards tile it, then
      after the selected plans have been carried out, in any order, the target holds
      exactly its own part. */
  lemma ReshardingPreservesTensor(files: Files, groups: seq<Group>, shape: Dims, target: ShardBox, fqn: string, g: GlobalTensor,
                                  plans: seq<LoadPlan>, sel: seq<LoadPlan>, before: seq<Element>, after: seq<Element>)
    requires ValidFiles(files) && Saved(files, groups, fqn, g) && CompleteSources(groups, shape) && BoxInShape(target, shape)
    requires PlansOf(plans, groups, target, fqn) && Selects(sel, plans)
    requires Filled(files, target.size, AsSet(sel), before, after)
    ensures after == Restrict(g, target)
  {
    CompleteSourcesCover(groups, shape, target, fqn);
    ExactIffCovered(files, groups, target, fqn, g, plans, sel);
  }

  lemma CoveredFillIsExact(files: Files, groups: seq<Group>, target: ShardBox, fqn: string, g: GlobalTensor,
                           plans: seq<LoadPlan>, sel: seq<LoadPlan>, before: seq<Element>, after: seq<Element>)
    requires ValidFiles(files) && Saved(files, groups, fqn, g)
    requires PlansOf(plans, groups, target, fqn) && Selects(sel, plans)
    requires forall p :: p in AsSet(sel) ==> Usable(files, target.size, p)
    requires CoversTarget(sel, target) && Filled(files, target.size, AsSet(sel), before, after)
    ensures after == Restrict(g, target)
  {
    forall pos: nat | pos < |after| ensures after[pos] == Restrict(g, target)[pos] {
      assert Hit(target.size, AsSet(sel), pos);
      var p :| p in AsSet(sel) && Puts(files, target.size, p, pos, after[pos]);
      PutsOwnElement(files, groups, target, fqn, g, plans, sel, p, pos, after[pos]);
    }
  }

  lemma UncoveredFillKeepsHole(files: Files, groups: seq<Group>, target: ShardBox, fqn: string, g: GlobalTensor,
                               plans: seq<LoadPlan>, sel: seq<LoadPlan>, hole: nat)
    requires ValidFiles(files) && Saved(files, groups, fqn, g)
    requires PlansOf(plans, groups, target, fqn) && Selects(sel, plans)
    requires forall p :: p in AsSet(sel) ==> PlanInTarget(target.size, p) && Usable(files, target.size, p)
    requires hole < Product(target.size) && !Hit(target.size, AsSet(sel), hole)
    ensures !AlwaysExact(files, sel, target, g)
  {
    var want := Restrict(g, target);
    forall pos: nat | pos < |want| && Hit(target.size, AsSet(sel), pos) ensures PutBySome(files, target.size, AsSet(sel), pos, want[pos]) {
      var p, q: nat :| p in AsSet(sel) && q < Product(p.sizes) && Landing(target.size, p, q) == pos;
      assert Puts(files, target.size, p, pos, SourceData(files, p)[q]);
      PutsOwnElement(files, groups, target, fqn, g, plans, sel, p, pos, SourceData(files, p)[q]);
    }
    var data := HoleStays(files, target.size, AsSet(sel), want, hole);
  }

  /** What a position no plan reaches held before, it holds afterwards. */
  lemma HoleStays(files: Files, shape: Dims, plans: set<LoadPlan>, want: seq<Element>, hole: nat) returns (data: seq<Element>)
    requires |want| == Product(shape) && forall p :: p in plans ==> PlanInTarget(shape, p) && Usable(files, shape, p)
    requires forall pos: nat :: pos < |want| && Hit(shape, plans, pos) ==> PutBySome(files, shape, plans, pos, want[pos])
    requires hole < |want| && !Hit(shape, plans, hole)
    ensures Filled(files, shape, plans, data, data) && data != want
  {
    data := want[hole := want[hole] + [0]];
    assert data[hole] != want[hole];
    forall pos: nat | pos < |data| && Hit(shape, plans, pos) ensures PutBySome(files, shape, plans, pos, data[pos]) {
      assert pos != hole;
    }
  }

  lemma PutsOwnElement(files: Files, groups: seq<Group>, target: ShardBox, fqn: string, g: GlobalTensor,
                       plans: seq<LoadPlan>, sel: seq<LoadPlan>, p: LoadPlan, pos: nat, value: Element)
    requires ValidFiles(files) && Saved(files, groups, fqn, g)
    requires PlansOf(plans, groups, target, fqn) && Selects(sel, plans) && p in sel
    requires Usable(files, target.size, p) && Puts(files, target.size, p, pos, value)
    ensures pos < Product(target.size) && value == Restrict(g, target)[pos]
  {
    var i := SelectedReads(groups, target, fqn, plans, sel, p);
    var source := Sources(groups, target, {})[i];
    PathPlansOrigins(groups, target, fqn, {});
    assert source in Sources(groups, target, {});
    PlanForFits(source.0, source.1, target, fqn);
    var q :| 0 <= q < Product(p.sizes) && Landing(target.size, p, q) == pos && SourceData(files, p)[q] == value;
    PlanCopiesOwnElement(files, p, source.1, target, g, q);
  }
}
