/**
 Executing load plans: copying source slices into the target tensors, in whatever order
 the reading threads take and with whatever retries (default_resharder.py,
 _execute_load_plans and _execute_load_plans_with_read_strategy).
 */
module LoadExecution {
  import opened Wrappers
  import opened Geometry
  import opened LoadPlans
  import opened ReshardingUtils
  import opened Streams
  import opened SourceFiles

  type Files = map<Rank, SourceFile>

  ghost predicate ValidFiles(files: Files) {
    forall r :: r in files ==> ValidFile(files[r])
  }

  /** A target tensor of this rank, as a row-major buffer. */
  datatype LocalTensor = LocalTensor(shape: Dims, data: array<Element>)

  ghost predicate ValidTarget(t: LocalTensor) {
    t.data.Length == Product(t.shape)
  }

  /** The plan reads a tensor that its source file has, inside that tensor's bounds. */
  predicate Readable(files: Files, p: LoadPlan) {
    p.srcRank in files && p.srcFqn in files[p.srcRank].tensors && SliceInBounds(files[p.srcRank].tensors[p.srcFqn], p)
  }

  /** The elements a plan copies. */
  ghost function SourceData(files: Files, p: LoadPlan): (r: seq<Element>)
    requires ValidFiles(files) && Readable(files, p)
    ensures |r| == Product(p.srcSizes)
  {
    SliceElements(files[p.srcRank].tensors[p.srcFqn], p)
  }

  /** The plan writes inside a target of this shape as many elements as it reads. */
  predicate PlanInTarget(shape: Dims, p: LoadPlan) {
    BoxInShape(Box(p.offsets, p.sizes), shape) && p.srcSizes == p.sizes
  }

  /** Where the plan's q-th element lands in the target buffer. */
  function Landing(shape: Dims, p: LoadPlan, q: nat): (pos: nat)
    requires PlanInTarget(shape, p) && q < Product(p.sizes)
    ensures pos < Product(shape)
  {
    var idx := Plus(p.offsets, Unravel(p.sizes, q));
    RowMajorBound(shape, idx);
    RowMajor(shape, idx)
  }

  lemma LandingInjective(shape: Dims, p: LoadPlan, i: nat, j: nat)
    requires PlanInTarget(shape, p) && i < Product(p.sizes) && j < Product(p.sizes)
    requires Landing(shape, p, i) == Landing(shape, p, j)
    ensures i == j
  {
    var a, b := Unravel(p.sizes, i), Unravel(p.sizes, j);
    RowMajorInjective(shape, Plus(p.offsets, a), Plus(p.offsets, b));
    forall d | 0 <= d < |a| ensures a[d] == b[d] {
      assert Plus(p.offsets, a)[d] == Plus(p.offsets, b)[d];
    }
    assert a == b;
    RowMajorOfUnravel(p.sizes, i);
    RowMajorOfUnravel(p.sizes, j);
  }

  // ----- what a set of plans does to one target, in any order

  ghost predicate Usable(files: Files, shape: Dims, p: LoadPlan) {
    ValidFiles(files) && Readable(files, p) && PlanInTarget(shape, p)
  }

  /** Plan p puts `value` at `pos`. */
  ghost predicate Puts(files: Files, shape: Dims, p: LoadPlan, pos: nat, value: Element)
    requires Usable(files, shape, p)
  {
    exists q :: 0 <= q < Product(p.sizes) && Landing(shape, p, q) == pos && SourceData(files, p)[q] == value
  }

  /** Some plan lands at `pos`. */
  ghost predicate Hit(shape: Dims, plans: set<LoadPlan>, pos: nat)
    requires forall p :: p in plans ==> PlanInTarget(shape, p)
  {
    exists p, q: nat :: p in plans && q < Product(p.sizes) && Landing(shape, p, q) == pos
  }

  ghost predicate PutBySome(files: Files, shape: Dims, plans: set<LoadPlan>, pos: nat, value: Element)
    requires forall p :: p in plans ==> Usable(files, shape, p)
  {
    exists p :: p in plans && Puts(files, shape, p, pos, value)
  }

  /** Every position some plan covers holds a value that one of those plans puts there,
      and every other position is untouched. */
  ghost predicate Filled(files: Files, shape: Dims, plans: set<LoadPlan>, before: seq<Element>, after: seq<Element>) {
    && (forall p :: p in plans ==> Usable(files, shape, p))
    && |before| == |after| == Product(shape)
    && (forall pos: nat :: pos < |after| && Hit(shape, plans, pos) ==> PutBySome(files, shape, plans, pos, after[pos]))
    && (forall pos: nat :: pos < |after| && !Hit(shape, plans, pos) ==> after[pos] == before[pos])
  }

  /** Doing the plans of one set and then those of another does both: neither order nor
      repetition matters to what Filled promises. */
  lemma FilledThenFilled(files: Files, shape: Dims, a: set<LoadPlan>, b: set<LoadPlan>,
                         first: seq<Element>, second: seq<Element>, third: seq<Element>)
    requires Filled(files, shape, a, first, second) && Filled(files, shape, b, second, third)
    ensures Filled(files, shape, a + b, first, third)
  {
    forall pos: nat | pos < |third|
      ensures Hit(shape, a + b, pos) <==> Hit(shape, a, pos) || Hit(shape, b, pos)
      ensures Hit(shape, a + b, pos) ==> PutBySome(files, shape, a + b, pos, third[pos])
    {
      if Hit(shape, a, pos) {
        var p, q: nat :| p in a && q < Product(p.sizes) && Landing(shape, p, q) == pos;
        assert p in a + b;
      }
      if Hit(shape, b, pos) {
        var p, q: nat :| p in b && q < Product(p.sizes) && Landing(shape, p, q) == pos;
        assert p in a + b;
        var w :| w in b && Puts(files, shape, w, pos, third[pos]);
        assert w in a + b;
      } else if Hit(shape, a, pos) {
        var w :| w in a && Puts(files, shape, w, pos, second[pos]);
        assert w in a + b;
      }
    }
  }

  lemma FilledByNone(files: Files, shape: Dims, data: seq<Element>)
    requires |data| == Product(shape)
    ensures Filled(files, shape, {}, data, data)
  {
  }

  // ----- every interleaving, write by write

  /** One element write: position and value. */
  type Write = (nat, Element)

  ghost function ApplyWrites(mem: seq<Element>, ws: seq<Write>): (r: seq<Element>)
    requires forall w :: w in ws ==> w.0 < |mem|
    ensures |r| == |mem|
  {
    if ws == [] then mem else ApplyWrites(mem, ws[..|ws| - 1])[ws[|ws| - 1].0 := ws[|ws| - 1].1]
  }

  /** The writes are the element writes of the plans, each at least once, in any order. */
  ghost predicate Interleaves(files: Files, shape: Dims, plans: set<LoadPlan>, ws: seq<Write>) {
    && (forall p :: p in plans ==> Usable(files, shape, p))
    && (forall w :: w in ws ==> w.0 < Product(shape) && PutBySome(files, shape, plans, w.0, w.1))
    && (forall p, q: nat :: p in plans && q < Product(p.sizes) ==> (Landing(shape, p, q), SourceData(files, p)[q]) in ws)
  }

  lemma {:induction false} LastWriteWins(mem: seq<Element>, ws: seq<Write>, pos: nat)
    requires pos < |mem| && forall w :: w in ws ==> w.0 < |mem|
    ensures (forall w :: w in ws ==> w.0 != pos) ==> ApplyWrites(mem, ws)[pos] == mem[pos]
    ensures (exists w :: w in ws && w.0 == pos) ==> (pos, ApplyWrites(mem, ws)[pos]) in ws
  {
    if ws != [] {
      var init, last := ws[..|ws| - 1], ws[|ws| - 1];
      LastWriteWins(mem, init, pos);
      assert forall w :: w in ws <==> w in init || w == last;
    }
  }

  /** Whatever the interleaving of threads, down to single elements, and whatever is
      redone after a failed attempt, the target ends up filled. */
  lemma AnyInterleavingFills(files: Files, shape: Dims, plans: set<LoadPlan>, ws: seq<Write>, mem: seq<Element>)
    requires Interleaves(files, shape, plans, ws) && |mem| == Product(shape)
    ensures Filled(files, shape, plans, mem, ApplyWrites(mem, ws))
  {
    var after := ApplyWrites(mem, ws);
    forall pos: nat | pos < |after|
      ensures Hit(shape, plans, pos) ==> PutBySome(files, shape, plans, pos, after[pos])
      ensures !Hit(shape, plans, pos) ==> after[pos] == mem[pos]
    {
      LastWriteWins(mem, ws, pos);
      if Hit(shape, plans, pos) {
        var p, q: nat :| p in plans && q < Product(p.sizes) && Landing(shape, p, q) == pos;
        assert (pos, SourceData(files, p)[q]) in ws;
      } else {
        forall w | w in ws ensures w.0 != pos {
          var p :| p in plans && Puts(files, shape, p, w.0, w.1);
        }
      }
    }
  }

  // ----- the copies themselves

  /** The first n source elements are in place, and nothing else has changed. */
  ghost predicate CopiedUpTo(shape: Dims, p: LoadPlan, src: seq<Element>, n: nat, before: seq<Element>, after: seq<Element>)
    requires PlanInTarget(shape, p) && |src| == Product(p.sizes)
  {
    && n <= |src| && |before| == |after| == Product(shape)
    && (forall i :: 0 <= i < n ==> after[Landing(shape, p, i)] == src[i])
    && (forall pos: nat :: pos < |after| && !LandsBefore(shape, p, n, pos) ==> after[pos] == before[pos])
  }

  /** One of the first n elements lands at `pos`. */
  ghost predicate LandsBefore(shape: Dims, p: LoadPlan, n: nat, pos: nat)
    requires PlanInTarget(shape, p) && n <= Product(p.sizes)
  {
    exists i: nat :: i < n && Landing(shape, p, i) == pos
  }

  lemma CopiedNext(shape: Dims, p: LoadPlan, src: seq<Element>, q: nat, before: seq<Element>, middle: seq<Element>)
    requires PlanInTarget(shape, p) && |src| == Product(p.sizes) && q < |src|
    requires CopiedUpTo(shape, p, src, q, before, middle)
    ensures CopiedUpTo(shape, p, src, q + 1, before, middle[Landing(shape, p, q) := src[q]])
  {
    forall i | 0 <= i < q ensures Landing(shape, p, i) != Landing(shape, p, q) {
      if Landing(shape, p, i) == Landing(shape, p, q) {
        LandingInjective(shape, p, i, q);
      }
    }
    forall pos: nat | pos < Product(shape)
      ensures !LandsBefore(shape, p, q + 1, pos) ==> pos != Landing(shape, p, q) && !LandsBefore(shape, p, q, pos)
    {
      if LandsBefore(shape, p, q, pos) {
        var i: nat :| i < q && Landing(shape, p, i) == pos;
        assert i < q + 1;
      }
    }
  }

  lemma CopiedAllIsFilled(files: Files, shape: Dims, p: LoadPlan, before: seq<Element>, after: seq<Element>)
    requires Usable(files, shape, p)
    requires CopiedUpTo(shape, p, SourceData(files, p), |SourceData(files, p)|, before, after)
    ensures Filled(files, shape, {p}, before, after)
  {
    forall pos: nat | pos < |after|
      ensures Hit(shape, {p}, pos) ==> PutBySome(files, shape, {p}, pos, after[pos])
      ensures LandsBefore(shape, p, Product(p.sizes), pos) ==> Hit(shape, {p}, pos)
    {
      assert p in {p};
      if Hit(shape, {p}, pos) {
        var w, q: nat :| w in {p} && q < Product(w.sizes) && Landing(shape, w, q) == pos;
        assert Puts(files, shape, p, pos, after[pos]);
      }
    }
  }

  method CopyIntoTarget(t: LocalTensor, p: LoadPlan, src: seq<Element>, ghost files: Files)
    requires ValidTarget(t) && Usable(files, t.shape, p) && src == SourceData(files, p)
    modifies t.data
    ensures Filled(files, t.shape, {p}, old(t.data[..]), t.data[..])
  {
    ghost var before := t.data[..];
    for q := 0 to |src|
      invariant CopiedUpTo(t.shape, p, src, q, before, t.data[..])
    {
      ghost var middle := t.data[..];
      t.data[Landing(t.shape, p, q)] := src[q];
      assert t.data[..] == middle[Landing(t.shape, p, q) := src[q]];
      CopiedNext(t.shape, p, src, q, before, middle);
    }
    CopiedAllIsFilled(files, t.shape, p, before, t.data[..]);
  }

  /** A plan together with the path of the target it fills. */
  type Step = (NestedPath, LoadPlan)

  function PlansFor(steps: seq<Step>, path: NestedPath): set<LoadPlan> {
    set s | s in steps && s.0 == path :: s.1
  }

  /** The targets by path; a path without plans is never written. */
  type TargetMap = map<NestedPath, LocalTensor>

  ghost predicate SeparateTargets(targets: TargetMap) {
    && (forall p :: p in targets ==> ValidTarget(targets[p]))
    && (forall p, q :: p in targets && q in targets && p != q ==> targets[p].data != targets[q].data)
  }

  ghost function Buffers(targets: TargetMap): set<array<Element>> {
    set p | p in targets :: targets[p].data
  }

  ghost function Contents(targets: TargetMap): (r: map<NestedPath, seq<Element>>)
    reads Buffers(targets)
    ensures r.Keys == targets.Keys
  {
    map p | p in targets :: targets[p].data[..]
  }

  /** Every target is filled by the steps for its path. */
  ghost predicate AllFilled(files: Files, targets: TargetMap, steps: seq<Step>,
                            before: map<NestedPath, seq<Element>>, after: map<NestedPath, seq<Element>>)
  {
    && before.Keys == after.Keys == targets.Keys
    && forall p :: p in targets ==> Filled(files, targets[p].shape, PlansFor(steps, p), before[p], after[p])
  }

  lemma AllFilledThen(files: Files, targets: TargetMap, a: seq<Step>, b: seq<Step>, first: map<NestedPath, seq<Element>>,
                      second: map<NestedPath, seq<Element>>, third: map<NestedPath, seq<Element>>)
    requires AllFilled(files, targets, a, first, second) && AllFilled(files, targets, b, second, third)
    ensures AllFilled(files, targets, a + b, first, third)
  {
    forall p | p in targets ensures Filled(files, targets[p].shape, PlansFor(a + b, p), first[p], third[p]) {
      FilledThenFilled(files, targets[p].shape, PlansFor(a, p), PlansFor(b, p), first[p], second[p], third[p]);
      assert PlansFor(a + b, p) == PlansFor(a, p) + PlansFor(b, p);
    }
  }

  lemma AllFilledNext(files: Files, targets: TargetMap, steps: seq<Step>, i: nat, first: map<NestedPath, seq<Element>>,
                      second: map<NestedPath, seq<Element>>, third: map<NestedPath, seq<Element>>)
    requires i < |steps|
    requires AllFilled(files, targets, steps[..i], first, second) && AllFilled(files, targets, [steps[i]], second, third)
    ensures AllFilled(files, targets, steps[..i + 1], first, third)
  {
    AllFilledThen(files, targets, steps[..i], [steps[i]], first, second, third);
    assert steps[..i + 1] == steps[..i] + [steps[i]];
  }

  /** The step's tensor exists and its slice is in bounds; `data` are its elements. */
  ghost predicate IsStaged(files: Files, s: Step, data: seq<Element>)
    requires ValidFiles(files)
  {
    Readable(files, s.1) && data == SourceData(files, s.1)
  }

  method CopyStep(files: Files, s: Step, data: seq<Element>, targets: TargetMap)
    requires ValidFiles(files) && SeparateTargets(targets) && IsStaged(files, s, data)
    requires s.0 in targets && PlanInTarget(targets[s.0].shape, s.1)
    modifies Buffers(targets)
    ensures AllFilled(files, targets, [s], old(Contents(targets)), Contents(targets))
  {
    assert targets[s.0].data in Buffers(targets);
    CopyIntoTarget(targets[s.0], s.1, data, files);
    OneStepFills(files, targets, s, old(Contents(targets)), Contents(targets));
  }

  datatype ReadStrategy = Auto | OffsetOnly | FullFile

  /** The plan's slice can be read by offset: the file's format allows it and, unless the
      slice is empty, records where the tensor's storage is. */
  predicate ByOffset(files: Files, p: LoadPlan) {
    && p.srcRank in files && files[p.srcRank].offsetReadable && p.srcFqn in files[p.srcRank].tensors
    && (HasEmptyDimension(p) || files[p.srcRank].tensors[p.srcFqn].checkpointOffset.Some?)
  }

  /** What is wrong with this plan's source, or its file's streams, to give that error. */
  predicate Causes(files: Files, strategy: ReadStrategy, p: LoadPlan, e: LoadError) {
    match e
    case MissingFile => p.srcRank !in files
    case MissingTensor => p.srcRank in files && p.srcFqn !in files[p.srcRank].tensors
    case BadSlice => p.srcRank in files && p.srcFqn in files[p.srcRank].tensors && !SliceInBounds(files[p.srcRank].tensors[p.srcFqn], p)
    case NotImplemented => strategy == OffsetOnly && p.srcRank in files && !ByOffset(files, p)
    case ReadFailed(_) => strategy != FullFile && ByOffset(files, p) && !files[p.srcRank].sound
  }

  ghost predicate AllByOffset(files: Files, steps: seq<Step>) {
    forall s :: s in steps ==> ByOffset(files, s.1)
  }

  lemma ByOffsetNext(files: Files, steps: seq<Step>, i: nat)
    requires i < |steps| && AllByOffset(files, steps[..i]) && ByOffset(files, steps[i].1)
    ensures AllByOffset(files, steps[..i + 1])
  {
    assert steps[..i + 1] == steps[..i] + [steps[i]];
  }

  lemma MissingCause(files: Files, rank: Rank, steps: seq<Step>)
    requires rank in files && !AllPresent(files[rank], steps) && forall s :: s in steps ==> s.1.srcRank == rank
    ensures Caused(files, OffsetOnly, steps, MissingTensor)
  {
    var s :| s in steps && s.1.srcFqn !in files[rank].tensors;
    assert Causes(files, OffsetOnly, s.1, MissingTensor);
  }

  ghost predicate Caused(files: Files, strategy: ReadStrategy, steps: seq<Step>, e: LoadError) {
    exists s :: s in steps && Causes(files, strategy, s.1, e)
  }

  /** A stream on this file, as good as its backend. */
  ghost predicate StreamsFile(stream: Stream, file: SourceFile) {
    stream.content == file.content && (file.sound ==> stream.exactSeek && stream.reliable)
  }

  /** Read one slice and copy it; a failed read copies nothing. */
  method OffsetStep(files: Files, stream: Stream, rank: Rank, s: Step, targets: TargetMap) returns (r: Result<(), LoadError>)
    requires ValidFiles(files) && SeparateTargets(targets) && rank in files && StreamsFile(stream, files[rank])
    requires files[rank].offsetReadable
    requires s.0 in targets && s.1.srcRank == rank && PlanInTarget(targets[s.0].shape, s.1)
    requires s.1.srcFqn in files[rank].tensors
    modifies stream, Buffers(targets)
    ensures r.Ok? ==> AllFilled(files, targets, [s], old(Contents(targets)), Contents(targets))
    ensures r.Ok? ==> ByOffset(files, s.1)
    ensures r.Err? ==> Contents(targets) == old(Contents(targets)) && Causes(files, OffsetOnly, s.1, r.error)
  {
    var data := ReadSourceTensorSlice(stream, files[rank].tensors[s.1.srcFqn], s.1);
    if data.Err? {
      return Err(data.error);
    }
    CopyStep(files, s, data.value, targets);
    return Ok(());
  }

  /** Offset reads of one open file: each slice is copied before the next is read. A tensor
      the file lacks is noticed before the first read. `done` counts the copies made
      before the first failure. */
  method RunOffsetSteps(files: Files, stream: Stream, rank: Rank, steps: seq<Step>, targets: TargetMap)
    returns (r: Result<(), LoadError>, ghost done: nat)
    requires ValidFiles(files) && SeparateTargets(targets) && rank in files && StreamsFile(stream, files[rank])
    requires files[rank].offsetReadable
    requires forall s :: s in steps ==> s.0 in targets && s.1.srcRank == rank && PlanInTarget(targets[s.0].shape, s.1)
    modifies stream, Buffers(targets)
    ensures done <= |steps| && (r.Ok? ==> done == |steps|)
    ensures AllFilled(files, targets, steps[..done], old(Contents(targets)), Contents(targets))
    ensures r == Err(MissingTensor) <==> !AllPresent(files[rank], steps)
    ensures r == Err(MissingTensor) ==> done == 0
    ensures r.Ok? ==> AllByOffset(files, steps)
    ensures r.Err? ==> Caused(files, OffsetOnly, steps, r.error)
  {
    done := 0;
    AllFilledNone(files, targets, Contents(targets));
    if !AllPresent(files[rank], steps) {
      MissingCause(files, rank, steps);
      return Err(MissingTensor), done;
    }
    for i := 0 to |steps|
      invariant done == i && AllByOffset(files, steps[..i])
      invariant AllFilled(files, targets, steps[..i], old(Contents(targets)), Contents(targets))
    {
      assert steps[i] in steps;
      ghost var before := Contents(targets);
      r := OffsetStep(files, stream, rank, steps[i], targets);
      if r.Err? {
        return r, done;
      }
      AllFilledNext(files, targets, steps, i, old(Contents(targets)), before, Contents(targets));
      ByOffsetNext(files, steps, i);
      done := i + 1;
    }
    assert steps[..|steps|] == steps;
    return Ok(()), done;
  }

  predicate AllPresent(file: SourceFile, steps: seq<Step>) {
    forall s :: s in steps ==> s.1.srcFqn in file.tensors
  }

  /** A full read stages every slice before it copies any, so a failure copies nothing. */
  method RunFullSteps(files: Files, rank: Rank, steps: seq<Step>, targets: TargetMap) returns (r: Result<(), LoadError>)
    requires ValidFiles(files) && SeparateTargets(targets) && rank in files
    requires forall s :: s in steps ==> s.0 in targets && s.1.srcRank == rank && PlanInTarget(targets[s.0].shape, s.1)
    modifies Buffers(targets)
    ensures r.Ok? <==> forall s :: s in steps ==> Readable(files, s.1)
    ensures r.Ok? ==> AllFilled(files, targets, steps, old(Contents(targets)), Contents(targets))
    ensures r.Err? ==> Contents(targets) == old(Contents(targets)) && Caused(files, FullFile, steps, r.error)
  {
    var staged := StageSlices(files, rank, steps);
    if staged.Err? {
      return Err(staged.error);
    }
    AllFilledNone(files, targets, Contents(targets));
    for i := 0 to |steps|
      invariant AllFilled(files, targets, steps[..i], old(Contents(targets)), Contents(targets))
    {
      assert steps[i] in steps;
      ghost var before := Contents(targets);
      CopyStep(files, steps[i], staged.value[i], targets);
      AllFilledNext(files, targets, steps, i, old(Contents(targets)), before, Contents(targets));
    }
    assert steps[..|steps|] == steps;
    return Ok(());
  }

  method StageSlices(files: Files, rank: Rank, steps: seq<Step>) returns (r: Result<seq<seq<Element>>, LoadError>)
    requires ValidFiles(files) && rank in files && forall s :: s in steps ==> s.1.srcRank == rank
    ensures r.Ok? <==> forall s :: s in steps ==> Readable(files, s.1)
    ensures r.Ok? ==> |r.value| == |steps| && forall i :: 0 <= i < |steps| ==> IsStaged(files, steps[i], r.value[i])
    ensures r.Err? ==> Caused(files, FullFile, steps, r.error)
  {
    var staged: seq<seq<Element>> := [];
    for i := 0 to |steps|
      invariant |staged| == i && forall j :: 0 <= j < i ==> IsStaged(files, steps[j], staged[j])
    {
      var s := steps[i];
      assert s in steps;
      if s.1.srcFqn !in files[rank].tensors {
        assert Causes(files, FullFile, s.1, MissingTensor);
        return Err(MissingTensor);
      }
      var data := SliceSourceTensor(files[rank].tensors[s.1.srcFqn], s.1);
      if data.Err? {
        assert Causes(files, FullFile, s.1, BadSlice);
        return Err(data.error);
      }
      staged := staged + [data.value];
    }
    return Ok(staged);
  }

  /** The plan's source is not there, or offsets are insisted on and it has none. */
  predicate PlanMustFail(files: Files, strategy: ReadStrategy, p: LoadPlan) {
    !Readable(files, p) || (strategy == OffsetOnly && !ByOffset(files, p))
  }

  /** The plan is read by offset through a backend that may misbehave. */
  predicate PlanMayFail(files: Files, strategy: ReadStrategy, p: LoadPlan) {
    strategy != FullFile && ByOffset(files, p) && !files[p.srcRank].sound
  }

  ghost predicate MustFail(files: Files, strategy: ReadStrategy, steps: seq<Step>) {
    exists s :: s in steps && PlanMustFail(files, strategy, s.1)
  }

  ghost predicate MayFail(files: Files, strategy: ReadStrategy, steps: seq<Step>) {
    exists s :: s in steps && PlanMayFail(files, strategy, s.1)
  }

  /** The steps of one source file, by offset reads or by a full read. A file without
      offset support fails with NotImplemented before anything is copied. */
  method RunSteps(files: Files, rank: Rank, steps: seq<Step>, targets: TargetMap, offsets: bool)
    returns (r: Result<(), LoadError>, ghost done: nat)
    requires ValidFiles(files) && SeparateTargets(targets)
    requires forall s :: s in steps ==> s.0 in targets && s.1.srcRank == rank && PlanInTarget(targets[s.0].shape, s.1)
    modifies Buffers(targets)
    ensures done <= |steps| && (r.Ok? ==> done == |steps|)
    ensures AllFilled(files, targets, steps[..done], old(Contents(targets)), Contents(targets))
    ensures r.Ok? && offsets ==> AllByOffset(files, steps)
    ensures !offsets && r.Err? ==> done == 0
    ensures r.Err? && steps != [] ==> Caused(files, if offsets then OffsetOnly else FullFile, steps, r.error)
  {
    done := 0;
    AllFilledNone(files, targets, Contents(targets));
    if rank !in files {
      assert steps != [] ==> steps[0] in steps && Causes(files, FullFile, steps[0].1, MissingFile);
      return Err(MissingFile), done;
    }
    if !offsets {
      r := RunFullSteps(files, rank, steps, targets);
      assert steps[..|steps|] == steps;
      return r, if r.Ok? then |steps| else 0;
    }
    if !files[rank].offsetReadable {
      assert steps != [] ==> steps[0] in steps && Causes(files, OffsetOnly, steps[0].1, NotImplemented);
      return Err(NotImplemented), done;
    }
    var stream := new Stream(files[rank].content, files[rank].sound, files[rank].sound);
    r, done := RunOffsetSteps(files, stream, rank, steps, targets);
  }

  lemma AllFilledNone(files: Files, targets: TargetMap, data: map<NestedPath, seq<Element>>)
    requires data.Keys == targets.Keys && forall p :: p in targets ==> |data[p]| == Product(targets[p].shape)
    ensures AllFilled(files, targets, [], data, data)
  {
    forall p | p in targets ensures Filled(files, targets[p].shape, PlansFor([], p), data[p], data[p]) {
      assert PlansFor([], p) == {};
      FilledByNone(files, targets[p].shape, data[p]);
    }
  }

  lemma OneStepFills(files: Files, targets: TargetMap, s: Step, before: map<NestedPath, seq<Element>>, after: map<NestedPath, seq<Element>>)
    requires before.Keys == after.Keys == targets.Keys && s.0 in targets
    requires forall p :: p in targets ==> |before[p]| == Product(targets[p].shape)
    requires Filled(files, targets[s.0].shape, {s.1}, before[s.0], after[s.0])
    requires forall p :: p in targets && p != s.0 ==> after[p] == before[p]
    ensures AllFilled(files, targets, [s], before, after)
  {
    forall p | p in targets ensures Filled(files, targets[p].shape, PlansFor([s], p), before[p], after[p]) {
      if p == s.0 {
        assert PlansFor([s], p) == {s.1};
      } else {
        assert PlansFor([s], p) == {};
        FilledByNone(files, targets[p].shape, before[p]);
      }
    }
  }

  // ----- grouping by source rank

  function StepsOf(plans: seq<(NestedPath, seq<LoadPlan>)>): seq<Step> {
    if plans == [] then []
    else StepsOf(plans[..|plans| - 1]) + StepsOfPath(plans[|plans| - 1].0, plans[|plans| - 1].1)
  }

  function StepsOfPath(path: NestedPath, plans: seq<LoadPlan>): seq<Step> {
    seq(|plans|, i requires 0 <= i < |plans| => (path, plans[i]))
  }

  /** Steps by source rank, with the ranks in insertion order. */
  datatype ByRank = ByRank(order: seq<Rank>, lists: map<Rank, seq<Step>>)

  /** The lists hold exactly these steps, each under its own source rank. */
  ghost predicate Groups(grouped: ByRank, steps: seq<Step>) {
    && (forall r :: r in grouped.order <==> r in grouped.lists)
    && (forall r :: r in grouped.lists ==> grouped.lists[r] != [])
    && (forall r, s :: r in grouped.lists && s in grouped.lists[r] ==> s.1.srcRank == r && s in steps)
    && (forall s :: s in steps ==> s.1.srcRank in grouped.lists && s in grouped.lists[s.1.srcRank])
  }

  function AddStep(grouped: ByRank, s: Step): ByRank {
    var r := s.1.srcRank;
    if r in grouped.lists then ByRank(grouped.order, grouped.lists[r := grouped.lists[r] + [s]])
    else ByRank(grouped.order + [r], grouped.lists[r := [s]])
  }

  lemma AddStepGroups(grouped: ByRank, steps: seq<Step>, s: Step)
    requires Groups(grouped, steps)
    ensures Groups(AddStep(grouped, s), steps + [s])
  {
  }

  lemma OneStepMore(before: seq<Step>, path: NestedPath, list: seq<LoadPlan>, j: nat)
    requires j < |list|
    ensures before + StepsOfPath(path, list[..j + 1]) == before + StepsOfPath(path, list[..j]) + [(path, list[j])]
  {
    assert list[..j + 1] == list[..j] + [list[j]];
  }

  method GroupByRank(plans: seq<(NestedPath, seq<LoadPlan>)>) returns (grouped: ByRank)
    ensures Groups(grouped, StepsOf(plans))
  {
    grouped := ByRank([], map[]);
    for i := 0 to |plans|
      invariant Groups(grouped, StepsOf(plans[..i]))
    {
      var path, list := plans[i].0, plans[i].1;
      for j := 0 to |list|
        invariant Groups(grouped, StepsOf(plans[..i]) + StepsOfPath(path, list[..j]))
      {
        AddStepGroups(grouped, StepsOf(plans[..i]) + StepsOfPath(path, list[..j]), (path, list[j]));
        OneStepMore(StepsOf(plans[..i]), path, list, j);
        grouped := AddStep(grouped, (path, list[j]));
      }
      assert list[..|list|] == list;
      assert plans[..i + 1][..i] == plans[..i];
    }
    assert plans[..|plans|] == plans;
  }

  lemma {:induction false} StepsOfMembers(plans: seq<(NestedPath, seq<LoadPlan>)>, s: Step)
    ensures s in StepsOf(plans) <==> exists i :: 0 <= i < |plans| && plans[i].0 == s.0 && s.1 in plans[i].1
  {
    if plans != [] {
      var init, last := plans[..|plans| - 1], plans[|plans| - 1];
      StepsOfMembers(init, s);
      if s.0 == last.0 && s.1 in last.1 {
        var j :| 0 <= j < |last.1| && last.1[j] == s.1;
        assert StepsOfPath(last.0, last.1)[j] == s;
      }
      assert s in StepsOf(init) ==> exists i :: 0 <= i < |init| && plans[i].0 == s.0 && s.1 in plans[i].1;
      if i :| 0 <= i < |plans| && plans[i].0 == s.0 && s.1 in plans[i].1 {
        if i < |init| { assert init[i].0 == s.0; }
      }
    }
  }

  // ----- the read strategy

  ghost predicate Complete(grouped: ByRank, rank: Rank, done: seq<Step>) {
    rank in grouped.lists && forall s :: s in grouped.lists[rank] ==> s in done
  }

  ghost predicate StepsAreSafe(grouped: ByRank, targets: TargetMap) {
    forall r, s :: r in grouped.lists && s in grouped.lists[r] ==>
      s.1.srcRank == r && s.0 in targets && PlanInTarget(targets[s.0].shape, s.1)
  }

  /** Some file's steps account for the error. */
  ghost predicate CausedInGroup(files: Files, strategy: ReadStrategy, grouped: ByRank, e: LoadError) {
    exists k :: k in grouped.lists && Caused(files, strategy, grouped.lists[k], e)
  }

  /** After the first n files: each is completed by offset reads or listed in `full`
      because some step of its cannot be read by offset. */
  ghost predicate OffsetsDone(files: Files, strategy: ReadStrategy, grouped: ByRank, n: nat, full: seq<Rank>, done: seq<Step>) {
    && n <= |grouped.order| && StepsInGroups(grouped, done)
    && (forall k :: 0 <= k < n ==> DoneByOffset(files, grouped, grouped.order[k], done) || grouped.order[k] in full)
    && (forall f :: f in full ==> f in grouped.order && f in grouped.lists && Caused(files, OffsetOnly, grouped.lists[f], NotImplemented))
    && (strategy == OffsetOnly ==> full == [])
  }

  ghost predicate StepsInGroups(grouped: ByRank, done: seq<Step>) {
    forall s :: s in done ==> s.1.srcRank in grouped.lists && s in grouped.lists[s.1.srcRank]
  }

  ghost predicate DoneByOffset(files: Files, grouped: ByRank, rank: Rank, done: seq<Step>) {
    Complete(grouped, rank, done) && AllByOffset(files, grouped.lists[rank])
  }

  lemma OffsetsDoneMore(files: Files, strategy: ReadStrategy, grouped: ByRank, n: nat, full: seq<Rank>, done: seq<Step>, m: nat, read: Result<(), LoadError>)
    requires OffsetsDone(files, strategy, grouped, n, full, done) && n < |grouped.order| && grouped.order[n] in grouped.lists
    requires m <= |grouped.lists[grouped.order[n]]| && StepsInGroups(grouped, grouped.lists[grouped.order[n]])
    requires read.Ok? ==> m == |grouped.lists[grouped.order[n]]| && AllByOffset(files, grouped.lists[grouped.order[n]])
    requires read == Err(NotImplemented) ==> Caused(files, OffsetOnly, grouped.lists[grouped.order[n]], NotImplemented)
    ensures var list := grouped.lists[grouped.order[n]];
      && OffsetsDone(files, strategy, grouped, n, full, done + list[..m])
      && (read.Ok? ==> OffsetsDone(files, strategy, grouped, n + 1, full, done + list[..m]))
      && (read == Err(NotImplemented) && strategy != OffsetOnly ==>
            OffsetsDone(files, strategy, grouped, n + 1, full + [grouped.order[n]], done + list[..m]))
  {
    var list := grouped.lists[grouped.order[n]];
    var more := done + list[..m];
    assert forall s :: s in more <==> s in done || s in list[..m];
    assert list[..|list|] == list;
    forall k | 0 <= k < n ensures DoneByOffset(files, grouped, grouped.order[k], more) || grouped.order[k] in full {
      assert DoneByOffset(files, grouped, grouped.order[k], done) || grouped.order[k] in full;
    }
  }

  /** Offset reads of every file; `full` lists the files that must be read in full. */
  method OffsetPhase(files: Files, strategy: ReadStrategy, grouped: ByRank, targets: TargetMap)
    returns (r: Result<(), LoadError>, full: seq<Rank>, ghost done: seq<Step>)
    requires ValidFiles(files) && SeparateTargets(targets) && StepsAreSafe(grouped, targets)
    requires forall r :: r in grouped.order ==> r in grouped.lists && grouped.lists[r] != []
    modifies Buffers(targets)
    ensures AllFilled(files, targets, done, old(Contents(targets)), Contents(targets))
    ensures StepsInGroups(grouped, done)
    ensures r.Ok? ==> OffsetsDone(files, strategy, grouped, |grouped.order|, full, done)
    ensures r.Err? && strategy != FullFile ==> CausedInGroup(files, strategy, grouped, r.error)
  {
    done, full := [], [];
    AllFilledNone(files, targets, Contents(targets));
    for i := 0 to |grouped.order|
      invariant AllFilled(files, targets, done, old(Contents(targets)), Contents(targets))
      invariant OffsetsDone(files, strategy, grouped, i, full, done)
    {
      var rank := grouped.order[i];
      ghost var mid := Contents(targets);
      var read;
      ghost var n;
      read, n := RunSteps(files, rank, grouped.lists[rank], targets, true);
      AllFilledThen(files, targets, done, grouped.lists[rank][..n], old(Contents(targets)), mid, Contents(targets));
      OffsetsDoneMore(files, strategy, grouped, i, full, done, n, read);
      done := done + grouped.lists[rank][..n];
      if read == Err(NotImplemented) && strategy != OffsetOnly {
        full := full + [rank];
      } else if read.Err? {
        if strategy != FullFile { CausedAlike(files, strategy, grouped.lists[rank], read.error); }
        return Err(read.error), full, done;
      }
    }
    return Ok(()), full, done;
  }

  /** Only what a missing offset means depends on the strategy. */
  lemma CausedAlike(files: Files, strategy: ReadStrategy, steps: seq<Step>, e: LoadError)
    requires Caused(files, OffsetOnly, steps, e) && strategy != FullFile && (e == NotImplemented ==> strategy == OffsetOnly)
    ensures Caused(files, strategy, steps, e)
  {
    var s :| s in steps && Causes(files, OffsetOnly, s.1, e);
    assert Causes(files, strategy, s.1, e);
  }

  /** Full reads of the listed files. */
  method FullPhase(files: Files, full: seq<Rank>, grouped: ByRank, targets: TargetMap)
    returns (r: Result<(), LoadError>, ghost done: seq<Step>)
    requires ValidFiles(files) && SeparateTargets(targets) && StepsAreSafe(grouped, targets)
    requires forall r :: r in full ==> r in grouped.lists && grouped.lists[r] != []
    modifies Buffers(targets)
    ensures AllFilled(files, targets, done, old(Contents(targets)), Contents(targets))
    ensures forall s :: s in done ==> s.1.srcRank in grouped.lists && s in grouped.lists[s.1.srcRank]
    ensures r.Ok? ==> forall k :: k in full ==> Complete(grouped, k, done)
    ensures r.Err? ==> CausedInGroup(files, FullFile, grouped, r.error)
  {
    done := [];
    AllFilledNone(files, targets, Contents(targets));
    for i := 0 to |full|
      invariant AllFilled(files, targets, done, old(Contents(targets)), Contents(targets))
      invariant forall s :: s in done ==> s.1.srcRank in grouped.lists && s in grouped.lists[s.1.srcRank]
      invariant forall k :: 0 <= k < i ==> Complete(grouped, full[k], done)
    {
      var rank := full[i];
      ghost var mid, before := Contents(targets), done;
      ghost var n;
      r, n := RunSteps(files, rank, grouped.lists[rank], targets, false);
      AllFilledThen(files, targets, done, grouped.lists[rank][..n], old(Contents(targets)), mid, Contents(targets));
      done := done + grouped.lists[rank][..n];
      assert forall k :: Complete(grouped, k, before) ==> Complete(grouped, k, done);
      if r.Err? {
        return r, done;
      }
    }
    return Ok(()), done;
  }

  /** Carry out every step: each file by offset reads, or, where those are unavailable,
      once more from the start by a full read. The order of files does not matter to
      the result (see FilledThenFilled and AnyInterleavingFills), so one order stands
      for all thread schedules. */
  method ExecuteWithReadStrategy(files: Files, strategy: ReadStrategy, grouped: ByRank, targets: TargetMap, ghost steps: seq<Step>)
    returns (r: Result<(), LoadError>)
    requires ValidFiles(files) && SeparateTargets(targets) && Groups(grouped, steps)
    requires forall s :: s in steps ==> s.0 in targets && PlanInTarget(targets[s.0].shape, s.1)
    modifies Buffers(targets)
    ensures r.Ok? ==> AllFilled(files, targets, steps, old(Contents(targets)), Contents(targets))
    ensures r.Err? ==> Caused(files, strategy, steps, r.error)
    ensures MustFail(files, strategy, steps) ==> r.Err?
    ensures r.Err? ==> MustFail(files, strategy, steps) || MayFail(files, strategy, steps)
  {
    ghost var early: seq<Step> := [];
    AllFilledNone(files, targets, Contents(targets));
    var full := grouped.order;
    if strategy != FullFile {
      r, full, early := OffsetPhase(files, strategy, grouped, targets);
      if r.Err? {
        CauseOfFailure(files, strategy, grouped, steps, r.error);
        return;
      }
    }
    ghost var mid := Contents(targets);
    ghost var late;
    r, late := FullPhase(files, full, grouped, targets);
    if r.Err? {
      FullReadCause(files, strategy, grouped, r.error);
      CauseOfFailure(files, strategy, grouped, steps, r.error);
    } else {
      BothPhasesDoAll(grouped, steps, early, late);
      PhasesFill(files, targets, steps, early, late, old(Contents(targets)), mid, Contents(targets));
      NothingFailed(files, strategy, grouped, steps, full, early);
    }
  }

  lemma PhasesFill(files: Files, targets: TargetMap, steps: seq<Step>, early: seq<Step>, late: seq<Step>,
                   before: map<NestedPath, seq<Element>>, mid: map<NestedPath, seq<Element>>, after: map<NestedPath, seq<Element>>)
    requires AllFilled(files, targets, early, before, mid) && AllFilled(files, targets, late, mid, after)
    requires (forall s :: s in early + late <==> s in steps) && forall s :: s in steps ==> s.0 in targets
    ensures AllFilled(files, targets, steps, before, after) && forall s :: s in steps ==> Readable(files, s.1)
  {
    AllFilledThen(files, targets, early, late, before, mid, after);
    SameStepsFill(files, targets, early + late, steps, before, after);
    FilledIsReadable(files, targets, steps, before, after);
  }

  lemma FilledIsReadable(files: Files, targets: TargetMap, steps: seq<Step>,
                         before: map<NestedPath, seq<Element>>, after: map<NestedPath, seq<Element>>)
    requires AllFilled(files, targets, steps, before, after) && forall s :: s in steps ==> s.0 in targets
    ensures forall s :: s in steps ==> Readable(files, s.1)
  {
    forall s | s in steps ensures Readable(files, s.1) {
      assert s.1 in PlansFor(steps, s.0);
      assert Usable(files, targets[s.0].shape, s.1);
    }
  }

  lemma CausedInSteps(files: Files, strategy: ReadStrategy, grouped: ByRank, steps: seq<Step>, e: LoadError)
    requires Groups(grouped, steps) && CausedInGroup(files, strategy, grouped, e)
    ensures Caused(files, strategy, steps, e)
  {
    var k :| k in grouped.lists && Caused(files, strategy, grouped.lists[k], e);
    var s :| s in grouped.lists[k] && Causes(files, strategy, s.1, e);
    assert s in steps;
  }

  lemma FullReadCause(files: Files, strategy: ReadStrategy, grouped: ByRank, e: LoadError)
    requires CausedInGroup(files, FullFile, grouped, e)
    ensures CausedInGroup(files, strategy, grouped, e)
  {
    var k :| k in grouped.lists && Caused(files, FullFile, grouped.lists[k], e);
    var s :| s in grouped.lists[k] && Causes(files, FullFile, s.1, e);
    assert Causes(files, strategy, s.1, e);
  }

  lemma CauseOfFailure(files: Files, strategy: ReadStrategy, grouped: ByRank, steps: seq<Step>, e: LoadError)
    requires Groups(grouped, steps) && CausedInGroup(files, strategy, grouped, e)
    ensures Caused(files, strategy, steps, e)
    ensures MustFail(files, strategy, steps) || MayFail(files, strategy, steps)
  {
    CausedInSteps(files, strategy, grouped, steps, e);
    var s :| s in steps && Causes(files, strategy, s.1, e);
    assert PlanMustFail(files, strategy, s.1) || PlanMayFail(files, strategy, s.1);
  }

  /** A load that succeeds under the offset-only strategy has read everything by offset. */
  lemma NothingFailed(files: Files, strategy: ReadStrategy, grouped: ByRank, steps: seq<Step>, full: seq<Rank>, early: seq<Step>)
    requires Groups(grouped, steps) && forall s :: s in steps ==> Readable(files, s.1)
    requires strategy != FullFile ==> OffsetsDone(files, strategy, grouped, |grouped.order|, full, early)
    ensures !MustFail(files, strategy, steps)
  {
    forall s | s in steps ensures !PlanMustFail(files, strategy, s.1) {
      var k :| 0 <= k < |grouped.order| && grouped.order[k] == s.1.srcRank;
      assert strategy == OffsetOnly ==> DoneByOffset(files, grouped, grouped.order[k], early);
    }
  }

  /** If each file was completed in one of the phases, both together did exactly the steps. */
  lemma BothPhasesDoAll(grouped: ByRank, steps: seq<Step>, early: seq<Step>, late: seq<Step>)
    requires Groups(grouped, steps)
    requires forall s :: s in early || s in late ==> s.1.srcRank in grouped.lists && s in grouped.lists[s.1.srcRank]
    requires forall k :: k in grouped.order ==> Complete(grouped, k, early) || Complete(grouped, k, late)
    ensures forall s :: s in early + late <==> s in steps
  {
    forall s | s in steps ensures s in early + late {
      assert s.1.srcRank in grouped.order;
      assert Complete(grouped, s.1.srcRank, early) || Complete(grouped, s.1.srcRank, late);
    }
  }

  lemma SameStepsFill(files: Files, targets: TargetMap, a: seq<Step>, b: seq<Step>,
                      before: map<NestedPath, seq<Element>>, after: map<NestedPath, seq<Element>>)
    requires AllFilled(files, targets, a, before, after) && forall s :: s in a <==> s in b
    ensures AllFilled(files, targets, b, before, after)
  {
    forall p | p in targets ensures PlansFor(a, p) == PlansFor(b, p) { }
  }
}
