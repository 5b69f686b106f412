/**
 DefaultResharder: generating the load plans of all paths, carrying them out, and the
 complete load (default_resharder.py).
 */
module DefaultResharder {
  import opened Wrappers
  import opened Geometry
  import opened LoadPlans
  import opened ReshardingUtils
  import opened SourceFiles
  import opened LoadExecution
  import opened ChunkWinners
  import opened Resharding

  /** What one target path contributes. */
  datatype PathOutcome = NotReshardable | NothingToLoad | Planned(plans: seq<LoadPlan>)

  type TargetMetadata = seq<(NestedPath, Sharding)>
  type SourceMetadata = map<NestedPath, seq<Group>>

  function Outcome(entry: (NestedPath, Sharding), source: SourceMetadata, rank: Rank): Result<PathOutcome, PlanError> {
    var (path, sharding) := entry;
    if sharding.OtherSharding? || path !in source then Ok(NotReshardable)
    else if rank !in sharding.boxes then Err(RankNotInMesh(rank))
    else
      var target := sharding.boxes[rank];
      match PathPlans(source[path], target, FqnOf(path), {})
      case Err(e) => Err(e)
      case Ok(None) => Ok(NotReshardable)
      case Ok(Some(plans)) =>
        if plans != [] then Ok(Planned(plans))
        else if forall d :: 0 <= d < |target.size| ==> target.size[d] > 0 then Ok(NotReshardable)
        else Ok(NothingToLoad)
  }

  /** A group lists a rank outside its mesh, and no earlier group is other metadata. */
  ghost predicate ListsForeignRank(groups: seq<Group>) {
    exists k :: 0 <= k < |groups| && ForeignRankIn(groups[k]) && forall j :: 0 <= j < k ==> groups[j].sharding.DTensor?
  }

  predicate ForeignRankIn(g: Group) {
    g.sharding.DTensor? && exists r :: r in g.ranks && r !in g.sharding.boxes
  }

  ghost predicate AllDTensor(groups: seq<Group>) {
    forall k :: 0 <= k < |groups| ==> groups[k].sharding.DTensor?
  }

  /** Some source shard has an index in common with the target. */
  ghost predicate SomeShardMeets(groups: seq<Group>, target: ShardBox) {
    exists r: Rank, b: ShardBox, idx :: Holds(groups, r, b) && InBox(idx, b) && InBox(idx, target)
  }

  lemma {:induction false} RankPlansFail(boxes: map<Rank, ShardBox>, ranks: seq<Rank>, target: ShardBox, fqn: string, seen: set<ShardBox>)
    ensures RankPlans(boxes, ranks, target, fqn, seen).Err? <==> exists r :: r in ranks && r !in boxes
  {
    if ranks != [] && ranks[0] in boxes {
      assert forall r :: r in ranks <==> r == ranks[0] || r in ranks[1..];
      RankPlansFail(boxes, ranks[1..], target, fqn, seen);
      RankPlansFail(boxes, ranks[1..], target, fqn, seen + {boxes[ranks[0]]});
    }
  }

  lemma {:induction false} PathPlansFail(groups: seq<Group>, target: ShardBox, fqn: string, seen: set<ShardBox>)
    ensures PathPlans(groups, target, fqn, seen).Err? <==> ListsForeignRank(groups)
    ensures PathPlans(groups, target, fqn, seen) == Ok(None) <==> !ListsForeignRank(groups) && !AllDTensor(groups)
  {
    if groups != [] && groups[0].sharding.DTensor? {
      var g := groups[0];
      RankPlansFail(g.sharding.boxes, g.ranks, target, fqn, seen);
      if !ForeignRankIn(g) {
        var after := RankPlans(g.sharding.boxes, g.ranks, target, fqn, seen).value.1;
        PathPlansFail(groups[1..], target, fqn, after);
        ForeignRankLater(groups);
      }
    }
  }

  lemma ForeignRankLater(groups: seq<Group>)
    requires groups != [] && groups[0].sharding.DTensor? && !ForeignRankIn(groups[0])
    ensures ListsForeignRank(groups) <==> ListsForeignRank(groups[1..])
    ensures AllDTensor(groups) <==> AllDTensor(groups[1..])
  {
    if k :| 0 <= k < |groups| && ForeignRankIn(groups[k]) && forall j :: 0 <= j < k ==> groups[j].sharding.DTensor? {
      assert groups[1..][k - 1] == groups[k];
    }
    if k :| 0 <= k < |groups[1..]| && ForeignRankIn(groups[1..][k]) && forall j :: 0 <= j < k ==> groups[1..][j].sharding.DTensor? {
      assert groups[k + 1] == groups[1..][k];
      forall j | 0 <= j < k + 1 ensures groups[j].sharding.DTensor? {
        if j > 0 { assert groups[j] == groups[1..][j - 1]; }
      }
    }
    forall k | 0 < k < |groups| ensures groups[k] == groups[1..][k - 1] { }
  }

  /** There are plans exactly if some source shard meets the target. */
  lemma PlansIffMeets(groups: seq<Group>, target: ShardBox, fqn: string)
    requires PathPlans(groups, target, fqn, {}).Ok? && PathPlans(groups, target, fqn, {}).value.Some?
    ensures PathPlans(groups, target, fqn, {}).value.value != [] <==> SomeShardMeets(groups, target)
  {
    var plans, sources := PathPlans(groups, target, fqn, {}).value.value, Sources(groups, target, {});
    PathPlansOrigins(groups, target, fqn, {});
    if plans != [] {
      assert sources[0] in sources;
      PlanStartsAtCorner(sources[0].0, sources[0].1, target, fqn);
    }
    if r: Rank, b: ShardBox, idx :| Holds(groups, r, b) && InBox(idx, b) && InBox(idx, target) {
      var m := HeldIsSource(groups, target, fqn, r, b, idx);
    }
  }

  /** What a target path comes to: an error if its rank, or a source rank listed before any
      other metadata, is outside the mesh; plans if some source shard meets the target;
      nothing to load if none does and the target is empty; otherwise it is reported. */
  lemma OutcomeMeans(entry: (NestedPath, Sharding), source: SourceMetadata, rank: Rank)
    ensures entry.1.OtherSharding? || entry.0 !in source ==> Outcome(entry, source, rank) == Ok(NotReshardable)
    ensures entry.1.DTensor? && entry.0 in source && rank !in entry.1.boxes ==> Outcome(entry, source, rank) == Err(RankNotInMesh(rank))
    ensures entry.1.DTensor? && entry.0 in source && rank in entry.1.boxes ==>
      var o, groups, target := Outcome(entry, source, rank), source[entry.0], entry.1.boxes[rank];
      && (o.Err? <==> ListsForeignRank(groups))
      && (o.Ok? && o.value.Planned? <==> !ListsForeignRank(groups) && AllDTensor(groups) && SomeShardMeets(groups, target))
      && (o == Ok(NothingToLoad) <==>
            !ListsForeignRank(groups) && AllDTensor(groups) && !SomeShardMeets(groups, target) && Product(target.size) == 0)
      && (o.Ok? && o.value.Planned? ==> o.value.plans != [] && PlansOf(o.value.plans, groups, target, FqnOf(entry.0)))
  {
    if HasShard(entry, rank) && entry.0 in source {
      var groups, target := source[entry.0], entry.1.boxes[rank];
      PathPlansFail(groups, target, FqnOf(entry.0), {});
      ProductPositive(target.size);
      if PathPlans(groups, target, FqnOf(entry.0), {}).Ok? && PathPlans(groups, target, FqnOf(entry.0), {}).value.Some? {
        PlansIffMeets(groups, target, FqnOf(entry.0));
      }
    }
  }

  /** The outcomes of all paths, or the first error. */
  function Outcomes(target: TargetMetadata, source: SourceMetadata, rank: Rank): Result<seq<PathOutcome>, PlanError> {
    if target == [] then Ok([])
    else match Outcomes(target[..|target| - 1], source, rank)
      case Err(e) => Err(e)
      case Ok(before) =>
        match Outcome(target[|target| - 1], source, rank)
        case Err(e) => Err(e)
        case Ok(last) => Ok(before + [last])
  }

  lemma {:induction false} OutcomesAt(target: TargetMetadata, source: SourceMetadata, rank: Rank)
    requires Outcomes(target, source, rank).Ok?
    ensures |Outcomes(target, source, rank).value| == |target|
    ensures forall i :: 0 <= i < |target| ==> Outcome(target[i], source, rank) == Ok(Outcomes(target, source, rank).value[i])
  {
    if target != [] {
      OutcomesAt(target[..|target| - 1], source, rank);
    }
  }

  /** An error of an early path stands whatever paths follow. */
  lemma {:induction false} OutcomesErrorStays(target: TargetMetadata, source: SourceMetadata, rank: Rank, n: nat)
    requires n <= |target| && Outcomes(target[..n], source, rank).Err?
    ensures Outcomes(target, source, rank) == Outcomes(target[..n], source, rank)
  {
    if n < |target| {
      var init := target[..|target| - 1];
      assert target[..n] == init[..n];
      OutcomesErrorStays(init, source, rank, n);
    } else {
      assert target[..n] == target;
    }
  }

  function NonReshardable(target: TargetMetadata, outcomes: seq<PathOutcome>): seq<NestedPath>
    requires |target| == |outcomes|
  {
    if target == [] then []
    else
      var n := |target| - 1;
      NonReshardable(target[..n], outcomes[..n]) + if outcomes[n].NotReshardable? then [target[n].0] else []
  }

  function PlannedEntries(target: TargetMetadata, outcomes: seq<PathOutcome>): seq<(NestedPath, seq<LoadPlan>)>
    requires |target| == |outcomes|
  {
    if target == [] then []
    else
      var n := |target| - 1;
      PlannedEntries(target[..n], outcomes[..n]) + if outcomes[n].Planned? then [(target[n].0, outcomes[n].plans)] else []
  }

  predicate IsPlannedAt(target: TargetMetadata, outcomes: seq<PathOutcome>, i: nat, e: (NestedPath, seq<LoadPlan>))
    requires |target| == |outcomes|
  {
    i < |target| && outcomes[i] == Planned(e.1) && target[i].0 == e.0
  }

  lemma {:induction false} PlannedEntriesMembers(target: TargetMetadata, outcomes: seq<PathOutcome>)
    requires |target| == |outcomes| && DistinctKeys(target)
    ensures DistinctKeys(PlannedEntries(target, outcomes))
    ensures forall e :: e in PlannedEntries(target, outcomes) <==> exists i: nat :: IsPlannedAt(target, outcomes, i, e)
  {
    if target != [] {
      var n := |target| - 1;
      var init := PlannedEntries(target[..n], outcomes[..n]);
      PlannedEntriesMembers(target[..n], outcomes[..n]);
      forall e ensures e in PlannedEntries(target, outcomes) <==> exists i: nat :: IsPlannedAt(target, outcomes, i, e) {
        PlannedAtLast(target, outcomes, e);
        assert e in PlannedEntries(target, outcomes) <==> e in init || IsPlannedAt(target, outcomes, n, e);
      }
      forall i | 0 <= i < |init| ensures init[i].0 != target[n].0 {
        assert init[i] in init;
        var j: nat :| IsPlannedAt(target[..n], outcomes[..n], j, init[i]);
      }
    }
  }

  lemma PlannedAtLast(target: TargetMetadata, outcomes: seq<PathOutcome>, e: (NestedPath, seq<LoadPlan>))
    requires |target| == |outcomes| > 0
    ensures var n := |target| - 1;
      (exists i: nat :: IsPlannedAt(target, outcomes, i, e)) <==>
      ((exists i: nat :: IsPlannedAt(target[..n], outcomes[..n], i, e)) || IsPlannedAt(target, outcomes, n, e))
  {
    var n := |target| - 1;
    if i: nat :| IsPlannedAt(target, outcomes, i, e) {
      assert i < n ==> IsPlannedAt(target[..n], outcomes[..n], i, e);
    }
    if i: nat :| IsPlannedAt(target[..n], outcomes[..n], i, e) {
      assert IsPlannedAt(target, outcomes, i, e);
    }
  }

  datatype ReshardingInfo = ReshardingInfo(plans: seq<(NestedPath, seq<LoadPlan>)>, nonReshardable: seq<NestedPath>)

  /** The paths that cannot be resharded are reported in order; every other non-empty
      path keeps a selection of its plans, under its own path. */
  ghost predicate InfoFor(info: ReshardingInfo, target: TargetMetadata, outcomes: seq<PathOutcome>)
    requires |target| == |outcomes|
  {
    var planned := PlannedEntries(target, outcomes);
    && info.nonReshardable == NonReshardable(target, outcomes)
    && |info.plans| == |planned|
    && forall i :: 0 <= i < |planned| ==> info.plans[i].0 == planned[i].0 && Selects(info.plans[i].1, planned[i].1)
  }

  lemma NextOutcome(done: TargetMetadata, entry: (NestedPath, Sharding), outcomes: seq<PathOutcome>, outcome: PathOutcome,
                    source: SourceMetadata, rank: Rank)
    requires Outcomes(done, source, rank) == Ok(outcomes) && |outcomes| == |done|
    requires Outcome(entry, source, rank) == Ok(outcome)
    ensures Outcomes(done + [entry], source, rank) == Ok(outcomes + [outcome])
    ensures PlannedEntries(done + [entry], outcomes + [outcome]) ==
      PlannedEntries(done, outcomes) + if outcome.Planned? then [(entry.0, outcome.plans)] else []
    ensures NonReshardable(done + [entry], outcomes + [outcome]) ==
      NonReshardable(done, outcomes) + if outcome.NotReshardable? then [entry.0] else []
  {
    assert (done + [entry])[..|done|] == done;
    assert (outcomes + [outcome])[..|outcomes|] == outcomes;
  }

  lemma NextOutcomeFails(target: TargetMetadata, i: nat, source: SourceMetadata, rank: Rank)
    requires i < |target| && Outcomes(target[..i], source, rank).Ok? && Outcome(target[i], source, rank).Err?
    ensures Outcomes(target, source, rank) == Err(Outcome(target[i], source, rank).error)
  {
    assert target[..i + 1][..i] == target[..i];
    OutcomesErrorStays(target, source, rank, i + 1);
  }

  method PlanAllPaths(target: TargetMetadata, source: SourceMetadata, rank: Rank)
    returns (r: Result<ReshardingInfo, PlanError>)
    ensures Outcomes(target, source, rank).Err? ==> r == Err(Outcomes(target, source, rank).error)
    ensures Outcomes(target, source, rank).Ok? ==>
      var outcomes := Outcomes(target, source, rank).value;
      |outcomes| == |target| && r == Ok(ReshardingInfo(PlannedEntries(target, outcomes), NonReshardable(target, outcomes)))
  {
    var result: seq<(NestedPath, seq<LoadPlan>)> := [];
    var nonReshardable: seq<NestedPath> := [];
    ghost var outcomes: seq<PathOutcome> := [];
    for i := 0 to |target|
      invariant Outcomes(target[..i], source, rank) == Ok(outcomes) && |outcomes| == i
      invariant result == PlannedEntries(target[..i], outcomes)
      invariant nonReshardable == NonReshardable(target[..i], outcomes)
    {
      var outcome := PlanEntry(target[i], source, rank);
      if outcome.Err? {
        NextOutcomeFails(target, i, source, rank);
        return Err(outcome.error);
      }
      NextOutcome(target[..i], target[i], outcomes, outcome.value, source, rank);
      assert target[..i + 1] == target[..i] + [target[i]];
      match outcome.value {
        case NotReshardable => nonReshardable := nonReshardable + [target[i].0];
        case NothingToLoad =>
        case Planned(plans) => result := result + [(target[i].0, plans)];
      }
      outcomes := outcomes + [outcome.value];
    }
    assert target[..|target|] == target;
    return Ok(ReshardingInfo(result, nonReshardable));
  }

  /** Choose one source per chunk, by name; fails exactly when two paths share a name. */
  method OptimizePlans(result: seq<(NestedPath, seq<LoadPlan>)>) returns (r: Result<seq<(NestedPath, seq<LoadPlan>)>, PlanError>)
    requires DistinctKeys(result) && forall i :: 0 <= i < |result| ==> result[i].1 != []
    ensures r.Ok? <==> AllDistinct(Names(result))
    ensures r.Ok? ==>
      && |r.value| == |result|
      && forall i :: 0 <= i < |result| ==> r.value[i].0 == result[i].0 && Selects(r.value[i].1, result[i].1)
  {
    var named := ConvertNestedPathDictToFqn(result);
    if named.Err? {
      return Err(named.error);
    }
    var optimized, _ := DeduplicateSourceChunks(named.value.0);
    NonEmptyIsAll(named.value.0);
    forall i | 0 <= i < |optimized|
      ensures optimized[i].0 in named.value.1 && named.value.1[optimized[i].0] == result[i].0
    {
      assert optimized[i].0 == Names(result)[i];
    }
    var renamed := RestorePaths(optimized, named.value.1);
    return Ok(renamed);
  }

  method RestorePaths(optimized: seq<(string, seq<LoadPlan>)>, toPath: map<string, NestedPath>) returns (renamed: seq<(NestedPath, seq<LoadPlan>)>)
    requires forall i :: 0 <= i < |optimized| ==> optimized[i].0 in toPath
    ensures |renamed| == |optimized| && forall i :: 0 <= i < |optimized| ==> renamed[i] == (toPath[optimized[i].0], optimized[i].1)
  {
    renamed := [];
    for i := 0 to |optimized|
      invariant |renamed| == i && forall k :: 0 <= k < i ==> renamed[k] == (toPath[optimized[k].0], optimized[k].1)
    {
      renamed := renamed + [(toPath[optimized[i].0], optimized[i].1)];
    }
  }

  method GenerateLoadPlans(target: TargetMetadata, source: SourceMetadata, rank: Rank)
    returns (r: Result<ReshardingInfo, PlanError>)
    requires DistinctKeys(target)
    ensures Outcomes(target, source, rank).Err? ==> r == Err(Outcomes(target, source, rank).error)
    ensures Outcomes(target, source, rank).Ok? ==>
      var outcomes := Outcomes(target, source, rank).value;
      && |outcomes| == |target|
      && (r.Ok? <==> AllDistinct(Names(PlannedEntries(target, outcomes))))
      && (r.Ok? ==> InfoFor(r.value, target, outcomes))
  {
    var planned := PlanAllPaths(target, source, rank);
    if planned.Err? {
      return planned;
    }
    PlannedEntriesMembers(target, Outcomes(target, source, rank).value);
    PlannedListsNonEmpty(target, source, rank);
    var optimized := OptimizePlans(planned.value.plans);
    if optimized.Err? {
      return Err(optimized.error);
    }
    return Ok(ReshardingInfo(optimized.value, planned.value.nonReshardable));
  }

  lemma PlannedListsNonEmpty(target: TargetMetadata, source: SourceMetadata, rank: Rank)
    requires DistinctKeys(target) && Outcomes(target, source, rank).Ok?
    ensures var outcomes := Outcomes(target, source, rank).value;
      |outcomes| == |target| && forall e :: e in PlannedEntries(target, outcomes) ==> e.1 != []
  {
    var outcomes := Outcomes(target, source, rank).value;
    OutcomesAt(target, source, rank);
    PlannedEntriesMembers(target, outcomes);
    forall e | e in PlannedEntries(target, outcomes) ensures e.1 != [] {
      var i: nat :| IsPlannedAt(target, outcomes, i, e);
      assert Outcome(target[i], source, rank) == Ok(Planned(e.1));
    }
  }

  lemma {:induction false} NonEmptyIsAll(d: seq<(string, seq<LoadPlan>)>)
    requires forall i :: 0 <= i < |d| ==> d[i].1 != []
    ensures NonEmpty(d) == d
  {
    if d != [] {
      NonEmptyIsAll(d[..|d| - 1]);
    }
  }

  method PlanEntry(entry: (NestedPath, Sharding), source: SourceMetadata, rank: Rank) returns (r: Result<PathOutcome, PlanError>)
    ensures r == Outcome(entry, source, rank)
  {
    var path, sharding := entry.0, entry.1;
    if sharding.OtherSharding? || path !in source {
      return Ok(NotReshardable);
    }
    if rank !in sharding.boxes {
      return Err(RankNotInMesh(rank));
    }
    var target := sharding.boxes[rank];
    var planned := PlanOnePath(source[path], target, FqnOf(path));
    match planned {
      case Err(e) => return Err(e);
      case Ok(None) => return Ok(NotReshardable);
      case Ok(Some(plans)) =>
        if plans != [] {
          return Ok(Planned(plans));
        } else if forall d :: 0 <= d < |target.size| ==> target.size[d] > 0 {
          return Ok(NotReshardable);
        } else {
          return Ok(NothingToLoad);
        }
    }
  }

  // ----- execution with aliased targets

  /** The address of each planned target; an empty tensor cannot alias. */
  function Addresses(plans: seq<(NestedPath, seq<LoadPlan>)>, targets: TargetMap): Targets<NestedPath, array<Element>>
    requires forall e :: e in plans ==> e.0 in targets
  {
    if plans == [] then []
    else
      assert plans[0] in plans;
      assert forall e :: e in plans[1..] ==> e in plans;
      var data := targets[plans[0].0].data;
      [(plans[0].0, if data.Length == 0 then None else Some(data))] + Addresses(plans[1..], targets)
  }

  lemma {:induction false} AddressesAt(plans: seq<(NestedPath, seq<LoadPlan>)>, targets: TargetMap)
    requires forall e :: e in plans ==> e.0 in targets
    ensures |Addresses(plans, targets)| == |plans|
    ensures forall i :: 0 <= i < |plans| ==>
      Addresses(plans, targets)[i] == (plans[i].0, if targets[plans[i].0].data.Length == 0 then None else Some(targets[plans[i].0].data))
  {
    if plans != [] {
      assert plans[0] in plans;
      assert forall e :: e in plans[1..] ==> e in plans;
      AddressesAt(plans[1..], targets);
    }
  }

  /** The path's target is the last planned one that uses its memory. */
  ghost predicate Kept(plans: seq<(NestedPath, seq<LoadPlan>)>, targets: TargetMap, path: NestedPath)
    requires forall e :: e in plans ==> e.0 in targets
  {
    HasKey(plans, path) && !IsDropped(Addresses(plans, targets), path)
  }

  function TargetsOf(plans: seq<(NestedPath, seq<LoadPlan>)>, targets: TargetMap): TargetMap
    requires forall e :: e in plans ==> e.0 in targets
  {
    map e | e in plans :: e.0 := targets[e.0]
  }

  /** Carry out the plans of every kept target: aliased targets are loaded once, from the
      last path that shares the tensor. */
  method ExecuteLoadPlans(files: Files, strategy: ReadStrategy, plans: seq<(NestedPath, seq<LoadPlan>)>, targets: TargetMap)
    returns (r: Result<(), LoadError>, ghost kept: TargetMap, ghost keptPlans: seq<(NestedPath, seq<LoadPlan>)>)
    requires ValidFiles(files) && DistinctKeys(plans)
    requires forall e :: e in plans ==> e.0 in targets && ValidTarget(targets[e.0]) && targets[e.0].data.Length > 0
    requires forall e, p :: e in plans && p in e.1 ==> PlanInTarget(targets[e.0].shape, p)
    modifies Buffers(targets)
    ensures forall e :: e in keptPlans <==> e in plans && Kept(plans, targets, e.0)
    ensures kept == TargetsOf(keptPlans, targets) && SeparateTargets(kept)
    ensures r.Ok? ==> AllFilled(files, kept, StepsOf(keptPlans), old(Contents(kept)), Contents(kept))
    ensures r.Err? ==> Caused(files, strategy, StepsOf(keptPlans), r.error)
    ensures MustFail(files, strategy, StepsOf(keptPlans)) ==> r.Err?
    ensures r.Err? ==> MustFail(files, strategy, StepsOf(keptPlans)) || MayFail(files, strategy, StepsOf(keptPlans))
  {
    AddressesAt(plans, targets);
    var addresses := Addresses(plans, targets);
    var keptAddresses, remaining, aliased := DedupeAliasedTargets(addresses, plans);
    var active := TargetsOf(remaining, targets);
    kept, keptPlans := active, remaining;
    KeptAreSeparate(plans, targets, remaining);
    forall e | e in plans ensures HasKey(plans, e.0) { }
    StepsFit(plans, targets, remaining);
    assert Buffers(active) <= Buffers(targets);
    var grouped := GroupByRank(remaining);
    r := ExecuteWithReadStrategy(files, strategy, grouped, active, StepsOf(remaining));
  }

  lemma StepsFit(plans: seq<(NestedPath, seq<LoadPlan>)>, targets: TargetMap, remaining: seq<(NestedPath, seq<LoadPlan>)>)
    requires forall e :: e in remaining ==> e in plans && e.0 in targets
    requires forall e, p :: e in plans && p in e.1 ==> e.0 in targets && PlanInTarget(targets[e.0].shape, p)
    ensures forall s :: s in StepsOf(remaining) ==>
      s.0 in TargetsOf(remaining, targets) && PlanInTarget(TargetsOf(remaining, targets)[s.0].shape, s.1)
  {
    var active := TargetsOf(remaining, targets);
    forall s | s in StepsOf(remaining) ensures s.0 in active && PlanInTarget(active[s.0].shape, s.1) {
      StepsOfMembers(remaining, s);
      var i :| 0 <= i < |remaining| && remaining[i].0 == s.0 && s.1 in remaining[i].1;
      assert remaining[i] in remaining;
    }
  }

  lemma KeptAreSeparate(plans: seq<(NestedPath, seq<LoadPlan>)>, targets: TargetMap, remaining: seq<(NestedPath, seq<LoadPlan>)>)
    requires DistinctKeys(plans)
    requires forall e :: e in plans ==> e.0 in targets && ValidTarget(targets[e.0]) && targets[e.0].data.Length > 0
    requires forall e :: e in remaining <==> e in plans && !IsDropped(Addresses(plans, targets), e.0)
    ensures SeparateTargets(TargetsOf(remaining, targets))
  {
    var active := TargetsOf(remaining, targets);
    forall p, q | p in active && q in active && p != q ensures active[p].data != active[q].data {
      var e :| e in remaining && e.0 == p;
      var f :| f in remaining && f.0 == q;
      KeptDiffer(plans, targets, e, f);
    }
  }

  lemma KeptDiffer(plans: seq<(NestedPath, seq<LoadPlan>)>, targets: TargetMap, e: (NestedPath, seq<LoadPlan>), f: (NestedPath, seq<LoadPlan>))
    requires DistinctKeys(plans) && forall x :: x in plans ==> x.0 in targets && targets[x.0].data.Length > 0
    requires e in plans && f in plans && e.0 != f.0
    requires !IsDropped(Addresses(plans, targets), e.0) && !IsDropped(Addresses(plans, targets), f.0)
    ensures targets[e.0].data != targets[f.0].data
  {
    AddressesAt(plans, targets);
    var i :| 0 <= i < |plans| && plans[i] == e;
    var j :| 0 <= j < |plans| && plans[j] == f;
    assert !Superseded(Addresses(plans, targets), i) && !Superseded(Addresses(plans, targets), j);
  }

  // ----- the complete load

  /** After a load, the target of this entry holds its part of any global tensor that the
      sources have saved enough of. */
  ghost predicate LoadedExactly(files: Files, groups: seq<Group>, target: ShardBox, fqn: string, data: seq<Element>) {
    Suffices(groups, target) ==> forall g: GlobalTensor :: Saved(files, groups, fqn, g) ==> data == Restrict(g, target)
  }

  datatype LoadFailure = PlanningFailed(plan: PlanError) | TargetMissing(path: NestedPath) | ReadingFailed(read: LoadError)

  /** This rank's shard of an entry, if the metadata places one on it. */
  predicate HasShard(entry: (NestedPath, Sharding), rank: Rank) {
    entry.1.DTensor? && rank in entry.1.boxes
  }

  ghost predicate EntryLoaded(files: Files, entry: (NestedPath, Sharding), source: SourceMetadata, rank: Rank, targets: TargetMap)
    reads if entry.0 in targets then {targets[entry.0].data} else {}
  {
    && HasShard(entry, rank) && entry.0 in source && entry.0 in targets
    && LoadedExactly(files, source[entry.0], entry.1.boxes[rank], FqnOf(entry.0), targets[entry.0].data[..])
  }

  /** Every target there is has the shape the metadata gives this rank. */
  ghost predicate TargetsFit(metadata: TargetMetadata, rank: Rank, targets: TargetMap) {
    forall e :: e in metadata && HasShard(e, rank) && e.0 in targets ==>
      ValidTarget(targets[e.0]) && targets[e.0].shape == e.1.boxes[rank].size
  }

  /** The info that GenerateLoadPlans returned for this metadata. */
  ghost predicate Generated(info: ReshardingInfo, metadata: TargetMetadata, source: SourceMetadata, rank: Rank) {
    && DistinctKeys(metadata)
    && Outcomes(metadata, source, rank).Ok?
    && |Outcomes(metadata, source, rank).value| == |metadata|
    && InfoFor(info, metadata, Outcomes(metadata, source, rank).value)
  }

  lemma PlannedEntryHasSelection(info: ReshardingInfo, metadata: TargetMetadata, source: SourceMetadata, rank: Rank, i: nat)
    returns (sel: seq<LoadPlan>)
    requires Generated(info, metadata, source, rank)
    requires i < |metadata| && Outcomes(metadata, source, rank).value[i].Planned?
    ensures (metadata[i].0, sel) in info.plans && Selects(sel, Outcomes(metadata, source, rank).value[i].plans)
  {
    var outcomes := Outcomes(metadata, source, rank).value;
    PlannedEntriesMembers(metadata, outcomes);
    var entry := (metadata[i].0, outcomes[i].plans);
    assert IsPlannedAt(metadata, outcomes, i, entry);
    assert entry in PlannedEntries(metadata, outcomes);
    var k :| 0 <= k < |info.plans| && PlannedEntries(metadata, outcomes)[k] == entry;
    sel := info.plans[k].1;
    assert info.plans[k] == (metadata[i].0, sel);
  }

  lemma PlannedOutcome(entry: (NestedPath, Sharding), source: SourceMetadata, rank: Rank, plans: seq<LoadPlan>)
    requires Outcome(entry, source, rank) == Ok(Planned(plans))
    ensures HasShard(entry, rank) && entry.0 in source && plans != []
    ensures PlansOf(plans, source[entry.0], entry.1.boxes[rank], FqnOf(entry.0))
  {
  }

  lemma SelectionComesFromEntry(info: ReshardingInfo, metadata: TargetMetadata, source: SourceMetadata, rank: Rank, e: (NestedPath, seq<LoadPlan>))
    returns (i: nat)
    requires Generated(info, metadata, source, rank) && e in info.plans
    ensures i < |metadata| && metadata[i].0 == e.0 && HasShard(metadata[i], rank) && e.0 in source
    ensures Outcome(metadata[i], source, rank).Ok? && Outcome(metadata[i], source, rank).value.Planned?
    ensures var plans := Outcome(metadata[i], source, rank).value.plans;
      plans != [] && Selects(e.1, plans) && PlansOf(plans, source[e.0], metadata[i].1.boxes[rank], FqnOf(e.0))
  {
    var outcomes := Outcomes(metadata, source, rank).value;
    PlannedEntriesMembers(metadata, outcomes);
    OutcomesAt(metadata, source, rank);
    var k :| 0 <= k < |info.plans| && info.plans[k] == e;
    var planned := PlannedEntries(metadata, outcomes)[k];
    assert planned in PlannedEntries(metadata, outcomes);
    i :| 0 <= i < |metadata| && outcomes[i] == Planned(planned.1) && metadata[i].0 == planned.0;
    PlannedOutcome(metadata[i], source, rank, planned.1);
  }

  lemma SelectedPlanFits(plans: seq<LoadPlan>, sel: seq<LoadPlan>, groups: seq<Group>, target: ShardBox, fqn: string, p: LoadPlan)
    requires PlansOf(plans, groups, target, fqn) && Selects(sel, plans) && p in sel
    ensures PlanInTarget(target.size, p) && Product(target.size) > 0
  {
    var i := SelectedReads(groups, target, fqn, plans, sel, p);
    forall d | 0 <= d < |target.size| ensures target.size[d] > 0 {
      assert p.sizes[d] > 0 && p.offsets[d] + p.sizes[d] <= target.size[d];
    }
    ProductPositive(target.size);
  }

  predicate AllThere(plans: seq<(NestedPath, seq<LoadPlan>)>, targets: TargetMap) {
    forall e :: e in plans ==> e.0 in targets
  }

  method FirstMissing(plans: seq<(NestedPath, seq<LoadPlan>)>, targets: TargetMap) returns (r: Option<NestedPath>)
    ensures r.None? <==> AllThere(plans, targets)
    ensures r.Some? ==> HasKey(plans, r.value) && r.value !in targets
  {
    for i := 0 to |plans|
      invariant forall j :: 0 <= j < i ==> plans[j].0 in targets
    {
      if plans[i].0 !in targets {
        assert plans[i] in plans;
        return Some(plans[i].0);
      }
    }
    return None;
  }

  lemma InfoIsSafe(info: ReshardingInfo, metadata: TargetMetadata, source: SourceMetadata, rank: Rank, targets: TargetMap)
    requires Generated(info, metadata, source, rank) && TargetsFit(metadata, rank, targets) && AllThere(info.plans, targets)
    ensures DistinctKeys(info.plans)
    ensures forall e :: e in info.plans ==> ValidTarget(targets[e.0]) && targets[e.0].data.Length > 0
    ensures forall e, p :: e in info.plans && p in e.1 ==> PlanInTarget(targets[e.0].shape, p)
  {
    PlannedEntriesMembers(metadata, Outcomes(metadata, source, rank).value);
    forall e | e in info.plans
      ensures ValidTarget(targets[e.0]) && targets[e.0].data.Length > 0
      ensures forall p :: p in e.1 ==> PlanInTarget(targets[e.0].shape, p)
    {
      var i := SelectionComesFromEntry(info, metadata, source, rank, e);
      assert metadata[i] in metadata;
      var plans := Outcome(metadata[i], source, rank).value.plans;
      var target := metadata[i].1.boxes[rank];
      assert HasSource(e.1, plans[0].offsets);
      forall p | p in e.1 ensures PlanInTarget(target.size, p) && Product(target.size) > 0 {
        SelectedPlanFits(plans, e.1, source[e.0], target, FqnOf(e.0), p);
      }
    }
  }

  lemma KeptEntryIsLoaded(files: Files, entry: (NestedPath, Sharding), source: SourceMetadata, rank: Rank, plans: seq<LoadPlan>,
                          sel: seq<LoadPlan>, keptPlans: seq<(NestedPath, seq<LoadPlan>)>, kept: TargetMap,
                          before: map<NestedPath, seq<Element>>, after: map<NestedPath, seq<Element>>)
    requires ValidFiles(files) && HasShard(entry, rank) && entry.0 in source && entry.0 in kept
    requires kept[entry.0].shape == entry.1.boxes[rank].size
    requires PlansOf(plans, source[entry.0], entry.1.boxes[rank], FqnOf(entry.0)) && Selects(sel, plans)
    requires (entry.0, sel) in keptPlans && forall e :: e in keptPlans && e.0 == entry.0 ==> e.1 == sel
    requires AllFilled(files, kept, StepsOf(keptPlans), before, after)
    ensures LoadedExactly(files, source[entry.0], entry.1.boxes[rank], FqnOf(entry.0), after[entry.0])
  {
    var target := entry.1.boxes[rank];
    assert PlansFor(StepsOf(keptPlans), entry.0) == AsSet(sel) by {
      forall p ensures (entry.0, p) in StepsOf(keptPlans) <==> p in sel {
        StepsOfMembers(keptPlans, (entry.0, p));
        if p in sel {
          var i :| 0 <= i < |keptPlans| && keptPlans[i] == (entry.0, sel);
        }
      }
    }
    if Suffices(source[entry.0], target) {
      SufficientSourcesCover(source[entry.0], target, FqnOf(entry.0));
      forall g: GlobalTensor | Saved(files, source[entry.0], FqnOf(entry.0), g) ensures after[entry.0] == Restrict(g, target) {
        ExactIffCovered(files, source[entry.0], target, FqnOf(entry.0), g, plans, sel);
      }
    }
  }

  /** Every rank has a shard in the meshes that list it, and no two planned paths share
      a name. */
  ghost predicate Plannable(metadata: TargetMetadata, source: SourceMetadata, rank: Rank)
    requires DistinctKeys(metadata)
  {
    Outcomes(metadata, source, rank).Ok? &&
      (OutcomesAt(metadata, source, rank);
       AllDistinct(Names(PlannedEntries(metadata, Outcomes(metadata, source, rank).value))))
  }

  lemma KeptSelection(plans: seq<(NestedPath, seq<LoadPlan>)>, targets: TargetMap, keptPlans: seq<(NestedPath, seq<LoadPlan>)>,
                      path: NestedPath, sel: seq<LoadPlan>)
    requires DistinctKeys(plans) && (path, sel) in plans && forall e :: e in plans ==> e.0 in targets
    requires forall e :: e in keptPlans <==> e in plans && Kept(plans, targets, e.0)
    requires forall e :: e in keptPlans ==> e.0 in targets
    requires Kept(plans, targets, path)
    ensures path in TargetsOf(keptPlans, targets) && TargetsOf(keptPlans, targets)[path] == targets[path]
    ensures (path, sel) in keptPlans && forall e :: e in keptPlans && e.0 == path ==> e.1 == sel
  {
    var k :| 0 <= k < |plans| && plans[k] == (path, sel);
    assert (path, sel) in keptPlans;
    forall e | e in keptPlans && e.0 == path ensures e.1 == sel {
      var j :| 0 <= j < |plans| && plans[j] == e;
      assert plans[j].0 == plans[k].0;
    }
  }

  lemma EntryOutcome(info: ReshardingInfo, metadata: TargetMetadata, source: SourceMetadata, rank: Rank, targets: TargetMap, i: nat,
                     files: Files, kept: TargetMap, keptPlans: seq<(NestedPath, seq<LoadPlan>)>,
                     before: map<NestedPath, seq<Element>>, after: map<NestedPath, seq<Element>>)
    requires ValidFiles(files) && Generated(info, metadata, source, rank) && TargetsFit(metadata, rank, targets)
    requires i < |metadata| && Outcomes(metadata, source, rank).value[i].Planned?
    requires DistinctKeys(info.plans) && forall e :: e in info.plans ==> e.0 in targets
    requires forall e :: e in keptPlans <==> e in info.plans && Kept(info.plans, targets, e.0)
    requires forall e :: e in keptPlans ==> e.0 in targets
    requires kept == TargetsOf(keptPlans, targets)
    requires AllFilled(files, kept, StepsOf(keptPlans), before, after)
    ensures HasKey(info.plans, metadata[i].0)
    ensures Kept(info.plans, targets, metadata[i].0) ==>
      && HasShard(metadata[i], rank) && metadata[i].0 in source && metadata[i].0 in kept
      && LoadedExactly(files, source[metadata[i].0], metadata[i].1.boxes[rank], FqnOf(metadata[i].0), after[metadata[i].0])
  {
    var sel := PlannedEntryHasSelection(info, metadata, source, rank, i);
    var k :| 0 <= k < |info.plans| && info.plans[k] == (metadata[i].0, sel);
    if Kept(info.plans, targets, metadata[i].0) {
      OutcomesAt(metadata, source, rank);
      assert metadata[i] in metadata;
      var plans := Outcomes(metadata, source, rank).value[i].plans;
      PlannedOutcome(metadata[i], source, rank, plans);
      KeptSelection(info.plans, targets, keptPlans, metadata[i].0, sel);
      KeptEntryIsLoaded(files, metadata[i], source, rank, plans, sel, keptPlans, kept, before, after);
    }
  }

  /** Every planned path has its entry in the plans, and if its target is kept, the target
      ends up with what the sources bring of it. */
  lemma EveryOutcome(info: ReshardingInfo, metadata: TargetMetadata, source: SourceMetadata, rank: Rank, targets: TargetMap,
                     files: Files, kept: TargetMap, keptPlans: seq<(NestedPath, seq<LoadPlan>)>,
                     before: map<NestedPath, seq<Element>>)
    requires ValidFiles(files) && Generated(info, metadata, source, rank) && TargetsFit(metadata, rank, targets)
    requires DistinctKeys(info.plans) && forall e :: e in info.plans ==> e.0 in targets
    requires forall e :: e in keptPlans <==> e in info.plans && Kept(info.plans, targets, e.0)
    requires forall e :: e in keptPlans ==> e.0 in targets
    requires kept == TargetsOf(keptPlans, targets)
    requires AllFilled(files, kept, StepsOf(keptPlans), before, Contents(kept))
    ensures forall i :: 0 <= i < |metadata| && Outcomes(metadata, source, rank).value[i].Planned? ==>
      HasKey(info.plans, metadata[i].0)
      && (Kept(info.plans, targets, metadata[i].0) ==> EntryLoaded(files, metadata[i], source, rank, targets))
  {
    var after := Contents(kept);
    forall i: nat | i < |metadata| && Outcomes(metadata, source, rank).value[i].Planned?
      ensures HasKey(info.plans, metadata[i].0)
      ensures Kept(info.plans, targets, metadata[i].0) ==> EntryLoaded(files, metadata[i], source, rank, targets)
    {
      EntryOutcome(info, metadata, source, rank, targets, i, files, kept, keptPlans, before, after);
    }
  }

  /** Some plan of a kept target has to fail the load. */
  ghost predicate KeptMustFail(files: Files, strategy: ReadStrategy, plans: seq<(NestedPath, seq<LoadPlan>)>, targets: TargetMap)
    requires forall e :: e in plans ==> e.0 in targets
  {
    exists e, p :: e in plans && Kept(plans, targets, e.0) && p in e.1 && PlanMustFail(files, strategy, p)
  }

  /** Some plan of a kept target is at the mercy of its backend. */
  ghost predicate KeptMayFail(files: Files, strategy: ReadStrategy, plans: seq<(NestedPath, seq<LoadPlan>)>, targets: TargetMap)
    requires forall e :: e in plans ==> e.0 in targets
  {
    exists e, p :: e in plans && Kept(plans, targets, e.0) && p in e.1 && PlanMayFail(files, strategy, p)
  }

  lemma StepIsKept(plans: seq<(NestedPath, seq<LoadPlan>)>, targets: TargetMap, keptPlans: seq<(NestedPath, seq<LoadPlan>)>, s: Step)
    requires forall e :: e in plans ==> e.0 in targets
    requires forall e :: e in keptPlans <==> e in plans && Kept(plans, targets, e.0)
    ensures s in StepsOf(keptPlans) <==> exists e :: e in plans && Kept(plans, targets, e.0) && e.0 == s.0 && s.1 in e.1
  {
    StepsOfMembers(keptPlans, s);
    if s in StepsOf(keptPlans) {
      var i :| 0 <= i < |keptPlans| && keptPlans[i].0 == s.0 && s.1 in keptPlans[i].1;
      assert keptPlans[i] in keptPlans;
    }
    if e :| e in plans && Kept(plans, targets, e.0) && e.0 == s.0 && s.1 in e.1 {
      var i :| 0 <= i < |keptPlans| && keptPlans[i] == e;
    }
  }

  lemma FailuresAreKept(files: Files, strategy: ReadStrategy, plans: seq<(NestedPath, seq<LoadPlan>)>, targets: TargetMap,
                        keptPlans: seq<(NestedPath, seq<LoadPlan>)>)
    requires forall e :: e in plans ==> e.0 in targets
    requires forall e :: e in keptPlans <==> e in plans && Kept(plans, targets, e.0)
    ensures MustFail(files, strategy, StepsOf(keptPlans)) <==> KeptMustFail(files, strategy, plans, targets)
    ensures MayFail(files, strategy, StepsOf(keptPlans)) <==> KeptMayFail(files, strategy, plans, targets)
  {
    forall s | s in StepsOf(keptPlans)
      ensures exists e :: e in plans && Kept(plans, targets, e.0) && e.0 == s.0 && s.1 in e.1
    {
      StepIsKept(plans, targets, keptPlans, s);
    }
    forall e, p | e in plans && Kept(plans, targets, e.0) && p in e.1 ensures (e.0, p) in StepsOf(keptPlans) {
      StepIsKept(plans, targets, keptPlans, (e.0, p));
    }
  }

  /** The load once everything is planned and every planned path has a target. */
  method LoadPlanned(files: Files, strategy: ReadStrategy, info: ReshardingInfo, ghost metadata: TargetMetadata, ghost source: SourceMetadata,
                     ghost rank: Rank, targets: TargetMap)
    returns (r: Result<(), LoadError>)
    requires ValidFiles(files) && DistinctKeys(metadata) && TargetsFit(metadata, rank, targets)
    requires Plannable(metadata, source, rank) && Generated(info, metadata, source, rank) && AllThere(info.plans, targets)
    modifies Buffers(targets)
    ensures KeptMustFail(files, strategy, info.plans, targets) ==> r.Err?
    ensures r.Err? ==> KeptMustFail(files, strategy, info.plans, targets) || KeptMayFail(files, strategy, info.plans, targets)
    ensures strategy != OffsetOnly ==> r != Err(NotImplemented)
    ensures r.Ok? ==> forall i :: 0 <= i < |metadata| && Outcomes(metadata, source, rank).value[i].Planned? ==>
      HasKey(info.plans, metadata[i].0)
      && (Kept(info.plans, targets, metadata[i].0) ==> EntryLoaded(files, metadata[i], source, rank, targets))
  {
    InfoIsSafe(info, metadata, source, rank, targets);
    ghost var kept, keptPlans;
    r, kept, keptPlans := ExecuteLoadPlans(files, strategy, info.plans, targets);
    FailuresAreKept(files, strategy, info.plans, targets, keptPlans);
    if r.Ok? {
      EveryOutcome(info, metadata, source, rank, targets, files, kept, keptPlans, old(Contents(kept)));
    }
  }

  /** Load every target entry, for the plans in `info`. The paths that cannot be resharded
      are returned; each other non-empty target is loaded exactly, unless a later planned
      path shares its memory, in which case that path's data is what it holds. Nothing is
      read unless all planned targets exist. It fails if some kept plan has to fail, and
      otherwise only if a backend that is read by offset misbehaves. */
  method Load(files: Files, strategy: ReadStrategy, metadata: TargetMetadata, source: SourceMetadata, rank: Rank, targets: TargetMap)
    returns (r: Result<seq<NestedPath>, LoadFailure>, ghost info: ReshardingInfo)
    requires ValidFiles(files) && DistinctKeys(metadata) && TargetsFit(metadata, rank, targets)
    modifies Buffers(targets)
    ensures r.Err? && r.error.PlanningFailed? <==> !Plannable(metadata, source, rank)
    ensures Plannable(metadata, source, rank) ==> Generated(info, metadata, source, rank)
    ensures r.Err? && r.error.TargetMissing? <==> Plannable(metadata, source, rank) && !AllThere(info.plans, targets)
    ensures r.Err? && r.error.TargetMissing? ==> HasKey(info.plans, r.error.path) && r.error.path !in targets
    ensures Plannable(metadata, source, rank) && AllThere(info.plans, targets) ==>
      && (KeptMustFail(files, strategy, info.plans, targets) ==> r.Err?)
      && (r.Err? ==> KeptMustFail(files, strategy, info.plans, targets) || KeptMayFail(files, strategy, info.plans, targets))
    ensures strategy != OffsetOnly ==> r != Err(ReadingFailed(NotImplemented))
    ensures r.Ok? ==>
      var outcomes := Outcomes(metadata, source, rank).value;
      && r.value == info.nonReshardable && |outcomes| == |metadata| && AllThere(info.plans, targets)
      && (forall i :: 0 <= i < |metadata| && outcomes[i].Planned? ==>
            HasKey(info.plans, metadata[i].0)
            && (Kept(info.plans, targets, metadata[i].0) ==> EntryLoaded(files, metadata[i], source, rank, targets)))
  {
    info := ReshardingInfo([], []);
    var planned := GenerateLoadPlans(metadata, source, rank);
    if planned.Err? {
      return Err(PlanningFailed(planned.error)), info;
    }
    info := planned.value;
    var missing := FirstMissing(planned.value.plans, targets);
    if missing.Some? {
      return Err(TargetMissing(missing.value)), info;
    }
    var done := LoadPlanned(files, strategy, planned.value, metadata, source, rank, targets);
    return if done.Err? then Err(ReadingFailed(done.error)) else Ok(planned.value.nonReshardable), info;
  }

  // ----- whether to reshard at all

  datatype Format = Torch | Safetensors | OtherFormat

  /** Metadata of one saved item: groups by path, and the file format each rank recorded. */
  datatype ItemMetadata = ItemMetadata(paths: SourceMetadata, formats: map<Rank, Option<Format>>)

  /** Some described target path has no group with exactly the target's sharding. */
  predicate Differs(source: SourceMetadata, target: TargetMetadata) {
    exists i :: 0 <= i < |target| && target[i].0 in source && !Matches(source[target[i].0], target[i].1)
  }

  predicate Matches(groups: seq<Group>, sharding: Sharding) {
    exists g :: g in groups && g.sharding == sharding
  }

  predicate HasSafetensors(item: ItemMetadata) {
    exists r :: r in item.formats && item.formats[r] == Some(Safetensors)
  }

  /** Resharding is decided by comparing shardings path by path; a safetensors source is
      always resharded. */
  method ShouldReshard(source: Option<ItemMetadata>, target: Option<TargetMetadata>) returns (b: bool)
    ensures b <==> (source.Some? && target.Some? && (HasSafetensors(source.value) || Differs(source.value.paths, target.value)))
  {
    if source.None? || target.None? {
      return false;
    }
    if HasSafetensors(source.value) {
      return true;
    }
    var paths, entries := source.value.paths, target.value;
    for i := 0 to |entries|
      invariant forall k :: 0 <= k < i ==> entries[k].0 !in paths || Matches(paths[entries[k].0], entries[k].1)
    {
      if entries[i].0 in paths {
        var groups := paths[entries[i].0];
        var foundMatch := false;
        for j := 0 to |groups|
          invariant !foundMatch && forall k :: 0 <= k < j ==> groups[k].sharding != entries[i].1
        {
          if groups[j].sharding == entries[i].1 {
            foundMatch := true;
            assert groups[j] in groups;
            break;
          }
        }
        if !foundMatch {
          return true;
        }
      }
    }
    return false;
  }

  /** All elements of a saved tensor in row-major order: what a direct read delivers. */
  ghost function AllElements(t: SourceTensor): seq<Element>
    requires ValidTensor(t)
  {
    seq(Product(t.shape), q requires 0 <= q < Product(t.shape) => ElementAt(t, Unravel(t.shape, q)))
  }

  /** Each group lists exactly the ranks of its mesh. */
  ghost predicate MeshRanks(groups: seq<Group>) {
    forall g, r: Rank :: g in groups && g.sharding.DTensor? ==> (r in g.ranks <==> r in g.sharding.boxes)
  }

  /** When no resharding is called for, the file this rank wrote under the same path holds
      exactly what the load plans would have assembled for it. */
  lemma DirectReadAgreesWithPlans(source: SourceMetadata, target: TargetMetadata, i: nat, rank: Rank, files: Files,
                                  g: GlobalTensor, plans: seq<LoadPlan>, sel: seq<LoadPlan>,
                                  before: seq<Element>, after: seq<Element>)
    requires !Differs(source, target)
    requires i < |target| && target[i].0 in source && HasShard(target[i], rank)
    requires MeshRanks(source[target[i].0])
    requires ValidFiles(files) && Saved(files, source[target[i].0], FqnOf(target[i].0), g)
    requires Suffices(source[target[i].0], target[i].1.boxes[rank])
    requires PlansOf(plans, source[target[i].0], target[i].1.boxes[rank], FqnOf(target[i].0)) && Selects(sel, plans)
    requires Filled(files, target[i].1.boxes[rank].size, AsSet(sel), before, after)
    ensures rank in files && FqnOf(target[i].0) in files[rank].tensors
    ensures AllElements(files[rank].tensors[FqnOf(target[i].0)]) == after
  {
    var groups, box, fqn := source[target[i].0], target[i].1.boxes[rank], FqnOf(target[i].0);
    var own :| own in groups && own.sharding == target[i].1;
    var k :| 0 <= k < |groups| && groups[k] == own;
    assert GroupHolds(groups[k], rank, box);
    assert Holds(groups, rank, box);
    SufficientSourcesCover(groups, box, fqn);
    ExactIffCovered(files, groups, box, fqn, g, plans, sel);
    assert AllElements(files[rank].tensors[fqn]) == Restrict(g, box);
  }
}
