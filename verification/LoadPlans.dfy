/**
 Load plans: which piece of which source file fills which piece of this rank's
 target tensor (default_resharder.py, resharding_utils.py).

 Insertion-ordered Python dictionaries whose order can matter are sequences of
 key/value pairs with distinct keys.
 */
module LoadPlans {
  import opened Wrappers
  import opened Geometry

  type Rank = nat

  datatype Component = Key(name: string) | Position(index: nat)
  type NestedPath = seq<Component>

  /** A box whose offset and size have the same number of dimensions. */
  type ShardBox = b: Box | WellFormedBox(b) witness Box([], [])

  /** Sharding metadata. `boxes` is what compute_local_shard_info returns for each rank
      of the mesh; `rest` stands for the fields that are only ever compared. */
  datatype Sharding =
    | DTensor(globalShape: Dims, dtype: string, boxes: map<Rank, ShardBox>, rest: string)
    | OtherSharding(kind: string)

  /** The ranks that share one metadata value. */
  datatype Group = Group(sharding: Sharding, ranks: seq<Rank>)

  datatype LoadPlan = LoadPlan(offsets: Dims, sizes: Dims,
                               srcRank: Rank, srcFqn: string,
                               srcOffsets: Dims, srcSizes: Dims)

  datatype PlanError =
    | RankNotInMesh(rank: Rank)
    | FqnCollision(fqn: string)

  // ----- dictionaries as pair sequences

  ghost predicate DistinctKeys<K, V>(d: seq<(K, V)>) {
    forall i, j :: 0 <= i < j < |d| ==> d[i].0 != d[j].0
  }

  ghost predicate HasKey<K, V>(d: seq<(K, V)>, k: K) {
    exists i :: 0 <= i < |d| && d[i].0 == k
  }

  // ----- slices

  datatype Slice = Slice(start: int, stop: int)

  function Max(a: int, b: int): int { if a < b then b else a }
  function Min(a: int, b: int): int { if a < b then a else b }

  /** The common part of two slice tuples, or None as soon as one dimension has none. */
  function IntersectSlices(a: seq<Slice>, b: seq<Slice>): (r: Option<seq<Slice>>)
    ensures r.Some? ==> |r.value| == |a| == |b|
  {
    if |a| != |b| then None
    else if a == [] then Some([])
    else
      var start := Max(a[0].start, b[0].start);
      var stop := Min(a[0].stop, b[0].stop);
      if start >= stop then None
      else match IntersectSlices(a[1..], b[1..])
        case None => None
        case Some(rest) => Some([Slice(start, stop)] + rest)
  }

  predicate InSlices(idx: Dims, s: seq<Slice>) {
    |idx| == |s| && forall d :: 0 <= d < |s| ==> s[d].start <= idx[d] < s[d].stop
  }

  function SlicesOf(b: ShardBox): (r: seq<Slice>)
    ensures |r| == |b.offset|
  {
    seq(|b.offset|, d requires 0 <= d < |b.offset| => Slice(b.offset[d], b.offset[d] + b.size[d]))
  }

  lemma {:induction false} IntersectionIsMembership(a: seq<Slice>, b: seq<Slice>, idx: Dims)
    ensures InSlices(idx, a) && InSlices(idx, b) <==>
      IntersectSlices(a, b).Some? && InSlices(idx, IntersectSlices(a, b).value)
  {
    if |a| == |b| && a != [] && |idx| == |a| {
      IntersectionIsMembership(a[1..], b[1..], idx[1..]);
      SplitMembership(idx, a);
      SplitMembership(idx, b);
      if IntersectSlices(a, b).Some? {
        SplitMembership(idx, IntersectSlices(a, b).value);
      }
    }
  }

  lemma SplitMembership(idx: Dims, s: seq<Slice>)
    requires |idx| == |s| > 0
    ensures InSlices(idx, s) <==> s[0].start <= idx[0] < s[0].stop && InSlices(idx[1..], s[1..])
  {
    if s[0].start <= idx[0] < s[0].stop && InSlices(idx[1..], s[1..]) {
      forall d | 0 <= d < |s| ensures s[d].start <= idx[d] < s[d].stop {
        if d > 0 { assert s[d] == s[1..][d - 1] && idx[d] == idx[1..][d - 1]; }
      }
    }
  }

  lemma {:induction false} IntersectionStartsInBoth(a: seq<Slice>, b: seq<Slice>)
    requires IntersectSlices(a, b).Some?
    ensures var r := IntersectSlices(a, b).value;
      forall d :: 0 <= d < |r| ==>
        && r[d].start < r[d].stop
        && a[d].start <= r[d].start && r[d].stop <= a[d].stop
        && b[d].start <= r[d].start && r[d].stop <= b[d].stop
  {
    if a != [] {
      IntersectionStartsInBoth(a[1..], b[1..]);
      var r := IntersectSlices(a, b).value;
      forall d | 0 <= d < |r|
        ensures r[d].start < r[d].stop
        ensures a[d].start <= r[d].start && r[d].stop <= a[d].stop
        ensures b[d].start <= r[d].start && r[d].stop <= b[d].stop
      {
        if d > 0 {
          assert r[d] == r[1..][d - 1] && a[d] == a[1..][d - 1] && b[d] == b[1..][d - 1];
        }
      }
    }
  }

  lemma InSlicesOfBox(idx: Dims, b: ShardBox)
    ensures InSlices(idx, SlicesOf(b)) <==> InBox(idx, b)
  {
    if InSlices(idx, SlicesOf(b)) {
      forall d | 0 <= d < |idx| ensures b.offset[d] <= idx[d] < b.offset[d] + b.size[d] {
        assert SlicesOf(b)[d].start <= idx[d];
      }
    }
  }

  /** Shift to local coordinates by subtracting a global offset. */
  function GlobalToLocalSlice(s: seq<Slice>, offset: Dims): (r: seq<Slice>)
    requires |s| == |offset|
    ensures |r| == |s|
  {
    seq(|s|, d requires 0 <= d < |s| => Slice(s[d].start - offset[d], s[d].stop - offset[d]))
  }

  function Starts(s: seq<Slice>): (r: Dims)
    requires forall d :: 0 <= d < |s| ==> s[d].start >= 0
    ensures |r| == |s|
  {
    seq(|s|, d requires 0 <= d < |s| => s[d].start)
  }

  function Lengths(s: seq<Slice>): (r: Dims)
    requires forall d :: 0 <= d < |s| ==> s[d].start <= s[d].stop
    ensures |r| == |s|
  {
    seq(|s|, d requires 0 <= d < |s| => s[d].stop - s[d].start)
  }

  /** The plan that copies the common part of a source shard and the target shard. */
  function PlanFor(rank: Rank, source: ShardBox, target: ShardBox, fqn: string): Option<LoadPlan> {
    match IntersectSlices(SlicesOf(source), SlicesOf(target))
    case None => None
    case Some(common) =>
      IntersectionStartsInBoth(SlicesOf(source), SlicesOf(target));
      LocalStartsAreNatural(common, source);
      LocalStartsAreNatural(common, target);
      var sizes := Lengths(common);
      Some(LoadPlan(Starts(GlobalToLocalSlice(common, target.offset)), sizes, rank, fqn,
                    Starts(GlobalToLocalSlice(common, source.offset)), sizes))
  }

  lemma LocalStartsAreNatural(s: seq<Slice>, b: ShardBox)
    requires |s| == |b.offset|
    requires forall d :: 0 <= d < |s| ==> SlicesOf(b)[d].start <= s[d].start
    ensures forall d :: 0 <= d < |s| ==> GlobalToLocalSlice(s, b.offset)[d].start >= 0
  {
    assert forall d :: 0 <= d < |s| ==> SlicesOf(b)[d].start == b.offset[d];
  }

  /** The global region a plan moves. */
  function Moved(p: LoadPlan, target: ShardBox): ShardBox
    requires |p.offsets| == |p.sizes| == |target.offset|
  {
    Box(Plus(target.offset, p.offsets), p.sizes)
  }

  /** A plan lies inside both shards, and a local target position and its local source
      position name the same global index. */
  predicate PlanFits(p: LoadPlan, source: ShardBox, target: ShardBox) {
    && p.srcSizes == p.sizes
    && |p.offsets| == |p.sizes| == |p.srcOffsets| == |target.offset| == |source.offset|
    && BoxInShape(Box(p.offsets, p.sizes), target.size)
    && BoxInShape(Box(p.srcOffsets, p.sizes), source.size)
    && (forall d :: 0 <= d < |p.sizes| ==> p.sizes[d] > 0)
    && Plus(target.offset, p.offsets) == Plus(source.offset, p.srcOffsets)
  }

  /** A region inside a shard, written in the shard's local coordinates. */
  lemma LocalPart(common: seq<Slice>, b: ShardBox)
    requires |common| == |b.offset|
    requires forall d :: 0 <= d < |common| ==>
      SlicesOf(b)[d].start <= common[d].start < common[d].stop <= SlicesOf(b)[d].stop
    ensures forall d :: 0 <= d < |common| ==> GlobalToLocalSlice(common, b.offset)[d].start >= 0
    ensures var at := Starts(GlobalToLocalSlice(common, b.offset));
      && BoxInShape(Box(at, Lengths(common)), b.size)
      && SlicesOf(Box(Plus(b.offset, at), Lengths(common))) == common
  {
    var at := Starts(GlobalToLocalSlice(common, b.offset));
    var global := SlicesOf(Box(Plus(b.offset, at), Lengths(common)));
    forall d | 0 <= d < |common| ensures at[d] + Lengths(common)[d] <= b.size[d] && global[d] == common[d] {
      assert SlicesOf(b)[d] == Slice(b.offset[d], b.offset[d] + b.size[d]);
    }
  }

  lemma PlanForFits(rank: Rank, source: ShardBox, target: ShardBox, fqn: string)
    requires PlanFor(rank, source, target, fqn).Some?
    ensures var p := PlanFor(rank, source, target, fqn).value;
      && p.srcRank == rank && p.srcFqn == fqn && PlanFits(p, source, target)
      && IntersectSlices(SlicesOf(source), SlicesOf(target)) == Some(SlicesOf(Moved(p, target)))
  {
    IntersectionStartsInBoth(SlicesOf(source), SlicesOf(target));
    var common := IntersectSlices(SlicesOf(source), SlicesOf(target)).value;
    LocalPart(common, source);
    LocalPart(common, target);
    var p := PlanFor(rank, source, target, fqn).value;
    forall d | 0 <= d < |common|
      ensures p.sizes[d] > 0
      ensures Plus(target.offset, p.offsets)[d] == Plus(source.offset, p.srcOffsets)[d]
    {
      assert SlicesOf(Moved(p, target))[d] == common[d];
      assert SlicesOf(Box(Plus(source.offset, p.srcOffsets), p.sizes))[d] == common[d];
    }
    assert Plus(target.offset, p.offsets) == Plus(source.offset, p.srcOffsets);
  }

  /** There is a plan exactly when the shards share an index, and then it moves exactly
      the shared indices. */
  lemma PlanMovesIntersection(rank: Rank, source: ShardBox, target: ShardBox, fqn: string, idx: Dims)
    ensures InBox(idx, source) && InBox(idx, target) <==>
      var plan := PlanFor(rank, source, target, fqn);
      plan.Some? && PlanFits(plan.value, source, target) && InBox(idx, Moved(plan.value, target))
  {
    IntersectionIsMembership(SlicesOf(source), SlicesOf(target), idx);
    InSlicesOfBox(idx, source);
    InSlicesOfBox(idx, target);
    if PlanFor(rank, source, target, fqn).Some? {
      PlanForFits(rank, source, target, fqn);
      InSlicesOfBox(idx, Moved(PlanFor(rank, source, target, fqn).value, target));
    }
  }

  // ----- plans of one path

  type Planned = Result<(seq<LoadPlan>, set<ShardBox>), PlanError>

  /** The plans of one group's ranks and the boxes seen afterwards: a box already seen
      is skipped, so the first listed rank holding it is the one planned. */
  function RankPlans(boxes: map<Rank, ShardBox>, ranks: seq<Rank>, target: ShardBox, fqn: string,
                     seen: set<ShardBox>): Planned
  {
    if ranks == [] then Ok(([], seen))
    else if ranks[0] !in boxes then Err(RankNotInMesh(ranks[0]))
    else
      var box := boxes[ranks[0]];
      if box in seen then RankPlans(boxes, ranks[1..], target, fqn, seen)
      else After(Listed(PlanFor(ranks[0], box, target, fqn)),
                 RankPlans(boxes, ranks[1..], target, fqn, seen + {box}))
  }

  function Listed<T>(o: Option<T>): seq<T> {
    match o case None => [] case Some(x) => [x]
  }

  function After(plans: seq<LoadPlan>, r: Planned): Planned {
    match r
    case Err(e) => Err(e)
    case Ok((rest, seen)) => Ok((plans + rest, seen))
  }

  /** The plans of one path, or None when some group is not DTensor metadata. */
  function PathPlans(groups: seq<Group>, target: ShardBox, fqn: string, seen: set<ShardBox>)
    : Result<Option<seq<LoadPlan>>, PlanError>
  {
    if groups == [] then Ok(Some([]))
    else if groups[0].sharding.OtherSharding? then Ok(None)
    else match RankPlans(groups[0].sharding.boxes, groups[0].ranks, target, fqn, seen)
      case Err(e) => Err(e)
      case Ok((plans, after)) => Prepend(plans, PathPlans(groups[1..], target, fqn, after))
  }

  function Prepend(plans: seq<LoadPlan>, r: Result<Option<seq<LoadPlan>>, PlanError>)
    : Result<Option<seq<LoadPlan>>, PlanError>
  {
    match r
    case Err(e) => Err(e)
    case Ok(None) => Ok(None)
    case Ok(Some(rest)) => Ok(Some(plans + rest))
  }

  lemma AfterAfter(a: seq<LoadPlan>, b: seq<LoadPlan>, r: Planned)
    ensures After(a, After(b, r)) == After(a + b, r)
    ensures After([], r) == r
  {
    if r.Ok? {
      assert a + (b + r.value.0) == (a + b) + r.value.0;
      assert [] + r.value.0 == r.value.0;
    }
  }

  lemma PrependPrepend(a: seq<LoadPlan>, b: seq<LoadPlan>, r: Result<Option<seq<LoadPlan>>, PlanError>)
    ensures Prepend(a, Prepend(b, r)) == Prepend(a + b, r)
    ensures Prepend([], r) == r
  {
    if r.Ok? && r.value.Some? {
      assert a + (b + r.value.value) == (a + b) + r.value.value;
      assert [] + r.value.value == r.value.value;
    }
  }

  method PlanOneGroup(boxes: map<Rank, ShardBox>, ranks: seq<Rank>, target: ShardBox, fqn: string,
                      seen: set<ShardBox>) returns (r: Planned)
    ensures r == RankPlans(boxes, ranks, target, fqn, seen)
  {
    var plans: seq<LoadPlan> := [];
    var nowSeen := seen;
    AfterAfter([], [], RankPlans(boxes, ranks, target, fqn, seen));
    for i := 0 to |ranks|
      invariant RankPlans(boxes, ranks, target, fqn, seen) ==
        After(plans, RankPlans(boxes, ranks[i..], target, fqn, nowSeen))
    {
      var rank := ranks[i];
      assert ranks[i..][1..] == ranks[i + 1..];
      if rank !in boxes {
        return Err(RankNotInMesh(rank));
      }
      if boxes[rank] !in nowSeen {
        nowSeen := nowSeen + {boxes[rank]};
        var plan := PlanFor(rank, boxes[rank], target, fqn);
        AfterAfter(plans, Listed(plan), RankPlans(boxes, ranks[i + 1..], target, fqn, nowSeen));
        if plan.Some? {
          plans := plans + [plan.value];
        } else {
          assert plans + Listed(plan) == plans;
        }
      }
    }
    assert plans + [] == plans;
    return Ok((plans, nowSeen));
  }

  method PlanOnePath(groups: seq<Group>, target: ShardBox, fqn: string)
    returns (r: Result<Option<seq<LoadPlan>>, PlanError>)
    ensures r == PathPlans(groups, target, fqn, {})
  {
    var plans: seq<LoadPlan> := [];
    var seen: set<ShardBox> := {};
    PrependPrepend([], [], PathPlans(groups, target, fqn, {}));
    for g := 0 to |groups|
      invariant PathPlans(groups, target, fqn, {}) == Prepend(plans, PathPlans(groups[g..], target, fqn, seen))
    {
      var group := groups[g];
      assert groups[g..][1..] == groups[g + 1..];
      if group.sharding.OtherSharding? {
        return Ok(None);
      }
      var planned := PlanOneGroup(group.sharding.boxes, group.ranks, target, fqn, seen);
      if planned.Err? {
        return Err(planned.error);
      }
      PrependPrepend(plans, planned.value.0, PathPlans(groups[g + 1..], target, fqn, planned.value.1));
      plans, seen := plans + planned.value.0, planned.value.1;
    }
    assert plans + [] == plans;
    return Ok(Some(plans));
  }

  // ----- what the plans of one path are

  /** Some group lists the rank and places the box on it. */
  ghost predicate Holds(groups: seq<Group>, rank: Rank, box: ShardBox) {
    exists g :: 0 <= g < |groups| && GroupHolds(groups[g], rank, box)
  }

  predicate GroupHolds(g: Group, rank: Rank, box: ShardBox) {
    g.sharding.DTensor? && rank in g.ranks && rank in g.sharding.boxes && g.sharding.boxes[rank] == box
  }

  type Shard = (Rank, ShardBox)

  predicate Meets(box: ShardBox, target: ShardBox) {
    IntersectSlices(SlicesOf(box), SlicesOf(target)).Some?
  }

  /** The boxes seen after a group's ranks. */
  function SeenAfter(boxes: map<Rank, ShardBox>, ranks: seq<Rank>, seen: set<ShardBox>): set<ShardBox> {
    if ranks == [] || ranks[0] !in boxes then seen else SeenAfter(boxes, ranks[1..], seen + {boxes[ranks[0]]})
  }

  /** Of one group: the first listed shard of each new box that meets the target. */
  function GroupSources(boxes: map<Rank, ShardBox>, ranks: seq<Rank>, target: ShardBox, seen: set<ShardBox>): seq<Shard> {
    if ranks == [] || ranks[0] !in boxes then []
    else
      var box := boxes[ranks[0]];
      (if box !in seen && Meets(box, target) then [(ranks[0], box)] else [])
      + GroupSources(boxes, ranks[1..], target, seen + {box})
  }

  /** Of all groups: the shards that the plans of the path read, in order. */
  function Sources(groups: seq<Group>, target: ShardBox, seen: set<ShardBox>): seq<Shard> {
    if groups == [] || groups[0].sharding.OtherSharding? then []
    else
      var g := groups[0];
      GroupSources(g.sharding.boxes, g.ranks, target, seen)
      + Sources(groups[1..], target, SeenAfter(g.sharding.boxes, g.ranks, seen))
  }

  /** `from[i]` is the shard that plan i reads; the shards are distinct boxes. */
  ghost predicate ReadsFrom(from: seq<Shard>, plans: seq<LoadPlan>, target: ShardBox, fqn: string, seen: set<ShardBox>) {
    && |from| == |plans|
    && (forall i :: 0 <= i < |from| ==> PlanFor(from[i].0, from[i].1, target, fqn) == Some(plans[i]))
    && (forall i :: 0 <= i < |from| ==> from[i].1 !in seen)
    && (forall i, j :: 0 <= i < j < |from| ==> from[i].1 != from[j].1)
  }

  ghost predicate BoxAmong(from: seq<Shard>, box: ShardBox) {
    exists i :: 0 <= i < |from| && from[i].1 == box
  }

  lemma {:induction false} SeenGrows(boxes: map<Rank, ShardBox>, ranks: seq<Rank>, seen: set<ShardBox>)
    ensures seen <= SeenAfter(boxes, ranks, seen)
    ensures (forall k :: k in ranks ==> k in boxes) ==> forall k :: k in ranks ==> boxes[k] in SeenAfter(boxes, ranks, seen)
  {
    if ranks != [] && ranks[0] in boxes {
      SeenGrows(boxes, ranks[1..], seen + {boxes[ranks[0]]});
      assert forall k :: k in ranks <==> k == ranks[0] || k in ranks[1..];
    }
  }

  /** The plans of a group's ranks read its sources, in order. */
  lemma {:induction false} RankPlansRead(boxes: map<Rank, ShardBox>, ranks: seq<Rank>, target: ShardBox, fqn: string, seen: set<ShardBox>)
    requires RankPlans(boxes, ranks, target, fqn, seen).Ok?
    ensures RankPlans(boxes, ranks, target, fqn, seen).value.1 == SeenAfter(boxes, ranks, seen)
    ensures ReadsFrom(GroupSources(boxes, ranks, target, seen), RankPlans(boxes, ranks, target, fqn, seen).value.0, target, fqn, seen)
    ensures forall k :: k in ranks ==> k in boxes
  {
    if ranks != [] {
      var box := boxes[ranks[0]];
      if box in seen { assert seen + {box} == seen; }
      RankPlansRead(boxes, ranks[1..], target, fqn, seen + {box});
      if box !in seen {
        var first: seq<Shard> := if Meets(box, target) then [(ranks[0], box)] else [];
        JoinReads(first, Listed(PlanFor(ranks[0], box, target, fqn)), GroupSources(boxes, ranks[1..], target, seen + {box}),
                  RankPlans(boxes, ranks[1..], target, fqn, seen + {box}).value.0, target, fqn, seen, seen + {box});
      } else {
        assert [] + GroupSources(boxes, ranks[1..], target, seen) == GroupSources(boxes, ranks[1..], target, seen);
      }
    }
  }

  /** A group's sources are shards it holds, and a new box that meets the target is among them. */
  lemma {:induction false} GroupSourcesAreHeld(g: Group, ranks: seq<Rank>, target: ShardBox, seen: set<ShardBox>)
    requires g.sharding.DTensor? && forall k :: k in ranks ==> k in g.ranks && k in g.sharding.boxes
    ensures forall s :: s in GroupSources(g.sharding.boxes, ranks, target, seen) ==>
      GroupHolds(g, s.0, s.1) && s.1 in SeenAfter(g.sharding.boxes, ranks, seen)
    ensures forall b :: b in SeenAfter(g.sharding.boxes, ranks, seen) && b !in seen && Meets(b, target) ==>
      BoxAmong(GroupSources(g.sharding.boxes, ranks, target, seen), b)
  {
    if ranks != [] {
      var boxes, box := g.sharding.boxes, g.sharding.boxes[ranks[0]];
      var rest := GroupSources(boxes, ranks[1..], target, seen + {box});
      GroupSourcesAreHeld(g, ranks[1..], target, seen + {box});
      SeenGrows(boxes, ranks[1..], seen + {box});
      forall b | b in SeenAfter(boxes, ranks, seen) && b !in seen && Meets(b, target)
        ensures BoxAmong(GroupSources(boxes, ranks, target, seen), b)
      {
        FoundInNext(boxes, ranks, target, seen, b);
      }
    }
  }

  lemma FoundInNext(boxes: map<Rank, ShardBox>, ranks: seq<Rank>, target: ShardBox, seen: set<ShardBox>, b: ShardBox)
    requires ranks != [] && ranks[0] in boxes && b !in seen && Meets(b, target)
    requires b == boxes[ranks[0]] || BoxAmong(GroupSources(boxes, ranks[1..], target, seen + {boxes[ranks[0]]}), b)
    ensures BoxAmong(GroupSources(boxes, ranks, target, seen), b)
  {
    var box := boxes[ranks[0]];
    var first: seq<Shard> := if box !in seen && Meets(box, target) then [(ranks[0], box)] else [];
    if b == box { assert first[0].1 == b; }
    BoxAmongEither(first, GroupSources(boxes, ranks[1..], target, seen + {box}), b);
  }

  lemma JoinReads(a: seq<Shard>, plansA: seq<LoadPlan>, b: seq<Shard>, plansB: seq<LoadPlan>,
                  target: ShardBox, fqn: string, seen: set<ShardBox>, after: set<ShardBox>)
    requires ReadsFrom(a, plansA, target, fqn, seen) && ReadsFrom(b, plansB, target, fqn, after)
    requires seen <= after && forall i :: 0 <= i < |a| ==> a[i].1 in after
    ensures ReadsFrom(a + b, plansA + plansB, target, fqn, seen)
  {
    forall i, j | 0 <= i < j < |a + b| ensures (a + b)[i].1 != (a + b)[j].1 {
      if i < |a| <= j { assert (a + b)[j] == b[j - |a|]; }
    }
  }

  lemma BoxAmongEither(a: seq<Shard>, b: seq<Shard>, box: ShardBox)
    requires BoxAmong(a, box) || BoxAmong(b, box)
    ensures BoxAmong(a + b, box)
  {
    if i :| 0 <= i < |a| && a[i].1 == box {
      assert (a + b)[i].1 == box;
    } else {
      var i :| 0 <= i < |b| && b[i].1 == box;
      assert (a + b)[|a| + i].1 == box;
    }
  }

  lemma HoldsSplit(groups: seq<Group>, r: Rank, b: ShardBox)
    requires groups != []
    ensures Holds(groups, r, b) <==> GroupHolds(groups[0], r, b) || Holds(groups[1..], r, b)
  {
    if h :| 0 <= h < |groups| && GroupHolds(groups[h], r, b) {
      if h > 0 { assert GroupHolds(groups[1..][h - 1], r, b); }
    }
    if h :| 0 <= h < |groups[1..]| && GroupHolds(groups[1..][h], r, b) {
      assert GroupHolds(groups[h + 1], r, b);
    }
  }

  /** The plans of a path read its sources, in order. The sources are distinct shards held
      by its groups, and leave out no shard that meets the target. */
  lemma {:induction false} PathPlansOrigins(groups: seq<Group>, target: ShardBox, fqn: string, seen: set<ShardBox>)
    requires PathPlans(groups, target, fqn, seen).Ok? && PathPlans(groups, target, fqn, seen).value.Some?
    ensures ReadsFrom(Sources(groups, target, seen), PathPlans(groups, target, fqn, seen).value.value, target, fqn, seen)
    ensures forall s :: s in Sources(groups, target, seen) ==> Holds(groups, s.0, s.1)
    ensures forall r, b :: Holds(groups, r, b) && b !in seen && Meets(b, target) ==> BoxAmong(Sources(groups, target, seen), b)
  {
    if groups != [] {
      var g := groups[0];
      var (plans, after) := RankPlans(g.sharding.boxes, g.ranks, target, fqn, seen).value;
      var first, rest := GroupSources(g.sharding.boxes, g.ranks, target, seen), Sources(groups[1..], target, after);
      RankPlansRead(g.sharding.boxes, g.ranks, target, fqn, seen);
      GroupSourcesAreHeld(g, g.ranks, target, seen);
      SeenGrows(g.sharding.boxes, g.ranks, seen);
      PathPlansOrigins(groups[1..], target, fqn, after);
      JoinReads(first, plans, rest, PathPlans(groups[1..], target, fqn, after).value.value, target, fqn, seen, after);
      forall s: Shard | s in first + rest ensures Holds(groups, s.0, s.1) {
        HoldsSplit(groups, s.0, s.1);
      }
      forall r, b | Holds(groups, r, b) && b !in seen && Meets(b, target) ensures BoxAmong(first + rest, b) {
        HoldsSplit(groups, r, b);
        BoxAmongEither(first, rest, b);
      }
    }
  }
}
