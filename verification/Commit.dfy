/** Committing a checkpoint directory (checkpoint_writer.py, barriers.py). */
module Commit {
  import opened Wrappers

  // Every rank writes its files to a temporary directory, all ranks meet at a barrier, and
  // rank 0 renames the directory onto the final path (storage/filesystem.py).
  //
  // Any rank may stop at any step: a crash, an error and a barrier timeout look alike here.
  // Saves are numbered; the barrier's key for a save is its number, as each save executes the
  // barrier once.

  type Path = string
  type Rank = nat
  type Content = seq<int>

  datatype FileState = Partial | Complete(content: Content)

  datatype Node = Directory(entries: map<string, FileState>) | PlainFile

  type FileSystem = map<Path, Node>

  const METADATA: string := ".metadata"

  /** What is saved where: each save's final path and the files of each rank, and the
      metadata bytes rank 0 was given, if any. */
  datatype Plan = Plan(ranks: nat, finalPath: nat -> Path, prefix: string, files: (nat, Rank) -> map<string, Content>,
                       metadata: nat -> Option<Content>)

  /** The temporary directory is a sibling of the final path. */
  function TempPath(p: Plan, k: nat): Path {
    p.prefix + p.finalPath(k)
  }

  /** A rank's files, and for rank 0 the metadata if it was given any bytes. */
  function Expected(p: Plan, k: nat, r: Rank): map<string, Content> {
    var metadata := p.metadata(k);
    if r == 0 && metadata.Some? && metadata.value != [] then p.files(k, r)[METADATA := metadata.value] else p.files(k, r)
  }

  /** No save goes to a temporary directory, and no two ranks of a save write the same file. */
  ghost predicate ValidPlan(p: Plan) {
    && p.ranks > 0 && p.prefix != ""
    && (forall j, k :: p.finalPath(j) != TempPath(p, k))
    && (forall k, q, r, f :: q != r && f in Expected(p, k, q) ==> f !in Expected(p, k, r))
  }

  /** Rank r, which is not rank 0, writes a file in the next save that q writes in this one. */
  predicate Clash(p: Plan, k: nat, q: Rank, r: Rank, f: string) {
    q < p.ranks && 0 < r < p.ranks && f in Expected(p, k, q) && f in Expected(p, k + 1, r)
  }

  /** The next save goes to the same path and writes a file of the same name there. */
  ghost predicate Overwritten(p: Plan, k: nat) {
    p.finalPath(k) == p.finalPath(k + 1) && exists q: Rank, r: Rank, f :: Clash(p, k, q, r, f)
  }

  // ----- the rename

  /** os.rename of a directory: onto an absent path or an empty directory only. */
  function Rename(fs: FileSystem, src: Path, dst: Path): Option<FileSystem>
    requires src in fs
  {
    if dst in fs && fs[dst] != Directory(map[]) then None else Some((fs - {src})[dst := fs[src]])
  }

  // ----- the protocol

  datatype Phase = Writing | AtBarrier | LastArrived | Waiting | Passed | Finished | Dead

  /** The save a rank is in, and the files of that save it has opened and finished. */
  datatype RankState = RankState(save: nat, phase: Phase, begun: set<string>, written: set<string>)

  /** The shared store holds a counter and a last-member flag per barrier key. `arrived`
      and `committed` record who counted and what was renamed. */
  datatype World = World(fs: FileSystem, members: map<nat, nat>, lastMember: set<nat>, ranks: seq<RankState>,
                         arrived: map<nat, set<Rank>>, committed: set<nat>)

  datatype Step =
    | OpenFile(rank: Rank, file: string) | CloseFile(rank: Rank, file: string) | FinishFiles(rank: Rank)
    | Arrive(rank: Rank) | SetFlag(rank: Rank) | Pass(rank: Rank) | CommitDir(rank: Rank) | NextSave(rank: Rank)
    | Die(rank: Rank)

  function Members(w: World, k: nat): nat { if k in w.members then w.members[k] else 0 }

  function Arrived(w: World, k: nat): set<Rank> { if k in w.arrived then w.arrived[k] else {} }

  predicate InPhase(w: World, r: Rank, phase: Phase) {
    r < |w.ranks| && w.ranks[r].phase == phase
  }

  predicate Enabled(p: Plan, w: World, step: Step) {
    match step
    case OpenFile(r, f) =>
      && InPhase(w, r, Writing) && f in Expected(p, w.ranks[r].save, r) && f !in w.ranks[r].begun
      && (r == 0 && f == METADATA && f !in p.files(w.ranks[r].save, r) ==> p.files(w.ranks[r].save, r).Keys <= w.ranks[r].written)
      && (TempPath(p, w.ranks[r].save) in w.fs ==> w.fs[TempPath(p, w.ranks[r].save)].Directory?)
    case CloseFile(r, f) =>
      && InPhase(w, r, Writing) && f in Expected(p, w.ranks[r].save, r) && f in w.ranks[r].begun && f !in w.ranks[r].written
      && TempPath(p, w.ranks[r].save) in w.fs && w.fs[TempPath(p, w.ranks[r].save)].Directory?
    case FinishFiles(r) => InPhase(w, r, Writing) && w.ranks[r].written == Expected(p, w.ranks[r].save, r).Keys
    case Arrive(r) => InPhase(w, r, AtBarrier)
    case SetFlag(r) => InPhase(w, r, LastArrived)
    case Pass(r) => InPhase(w, r, Waiting) && w.ranks[r].save in w.lastMember
    case CommitDir(r) => InPhase(w, r, Passed)
    case NextSave(r) => InPhase(w, r, Finished)
    case Die(r) => r < |w.ranks| && w.ranks[r].phase != Dead
  }

  function WithRank(w: World, r: Rank, s: RankState): World
    requires r < |w.ranks|
  {
    w.(ranks := w.ranks[r := s])
  }

  function PutFile(fs: FileSystem, dir: Path, f: string, state: FileState): FileSystem
    requires dir in fs ==> fs[dir].Directory?
  {
    fs[dir := Directory((if dir in fs then fs[dir].entries else map[])[f := state])]
  }

  /** An occupied destination raises, which ends rank 0. */
  function AfterRename(w: World, r: Rank, renamed: Option<FileSystem>): World
    requires r < |w.ranks|
  {
    if renamed.None? then WithRank(w, r, w.ranks[r].(phase := Dead))
    else WithRank(w, r, w.ranks[r].(phase := Finished)).(fs := renamed.value, committed := w.committed + {w.ranks[r].save})
  }

  function Next(p: Plan, w: World, step: Step): World
    requires Enabled(p, w, step)
  {
    var r := step.rank;
    var s := w.ranks[r];
    match step
    case OpenFile(_, f) =>
      WithRank(w, r, s.(begun := s.begun + {f})).(fs := PutFile(w.fs, TempPath(p, s.save), f, Partial))
    case CloseFile(_, f) =>
      WithRank(w, r, s.(written := s.written + {f}))
        .(fs := PutFile(w.fs, TempPath(p, s.save), f, Complete(Expected(p, s.save, r)[f])))
    case FinishFiles(_) => WithRank(w, r, s.(phase := AtBarrier))
    case Arrive(_) =>
      var index := Members(w, s.save) + 1;
      WithRank(w, r, s.(phase := if index == p.ranks then LastArrived else Waiting))
        .(members := w.members[s.save := index], arrived := w.arrived[s.save := Arrived(w, s.save) + {r}])
    case SetFlag(_) => WithRank(w, r, s.(phase := Waiting)).(lastMember := w.lastMember + {s.save})
    case Pass(_) => WithRank(w, r, s.(phase := Passed))
    case CommitDir(_) =>
      if r != 0 || TempPath(p, s.save) !in w.fs then WithRank(w, r, s.(phase := Finished))
      else AfterRename(w, r, Rename(w.fs, TempPath(p, s.save), p.finalPath(s.save)))
    case NextSave(_) => WithRank(w, r, RankState(s.save + 1, Writing, {}, {}))
    case Die(_) => WithRank(w, r, s.(phase := Dead))
  }

  ghost predicate Start(p: Plan, w: World) {
    && |w.ranks| == p.ranks && w.members == map[] && w.lastMember == {} && w.arrived == map[] && w.committed == {}
    && forall r :: 0 <= r < |w.ranks| ==> w.ranks[r] == RankState(0, Writing, {}, {})
  }

  // ----- the invariant

  /** Rank r has finished writing file f of save k. */
  predicate Wrote(w: World, k: nat, r: Rank, f: string) {
    r < |w.ranks| && (w.ranks[r].save > k || (w.ranks[r].save == k && f in w.ranks[r].written))
  }

  predicate HasEntry(fs: FileSystem, dir: Path, f: string) {
    dir in fs && fs[dir].Directory? && f in fs[dir].entries
  }

  predicate HasFile(fs: FileSystem, dir: Path, f: string, content: Content) {
    HasEntry(fs, dir, f) && fs[dir].entries[f] == Complete(content)
  }

  ghost predicate HoldsSave(p: Plan, fs: FileSystem, d: Path, k: nat) {
    forall r: Rank, f :: r < p.ranks && f in Expected(p, k, r) ==> HasFile(fs, d, f, Expected(p, k, r)[f])
  }

  predicate Populated(fs: FileSystem, d: Path) {
    d in fs && fs[d] != Directory(map[])
  }

  /** The file is there, and complete unless the next save may overwrite it. */
  ghost predicate Holds(p: Plan, fs: FileSystem, dir: Path, k: nat, r: Rank, f: string)
    requires f in Expected(p, k, r)
  {
    HasEntry(fs, dir, f) && (!Overwritten(p, k) ==> HasFile(fs, dir, f, Expected(p, k, r)[f]))
  }

  /** A finished file is in the final directory of its save once that is committed; before,
      it is in the temporary one, or the final path is taken. */
  ghost predicate FileOk(p: Plan, w: World, k: nat, r: Rank, f: string)
    requires f in Expected(p, k, r)
  {
    if k in w.committed then Holds(p, w.fs, p.finalPath(k), k, r, f)
    else Populated(w.fs, p.finalPath(k)) || Holds(p, w.fs, TempPath(p, k), k, r, f)
  }

  ghost predicate FilesOk(p: Plan, w: World) {
    forall k, r: Rank, f :: f in Expected(p, k, r) && Wrote(w, k, r, f) ==> FileOk(p, w, k, r, f)
  }

  /** Rank 0 is done with save k. */
  predicate PassedByFirst(w: World, k: nat) {
    0 < |w.ranks| && (k < w.ranks[0].save || (k == w.ranks[0].save && w.ranks[0].phase == Finished))
  }

  /** Rank 0 leaves a save with files only when something is on its final path. */
  ghost predicate PassedArePopulated(p: Plan, w: World) {
    forall k, r: Rank, f :: PassedByFirst(w, k) && r < p.ranks && f in Expected(p, k, r) ==> Populated(w.fs, p.finalPath(k))
  }

  /** A rank writes only before it arrives, arrives with everything written, and leaves the
      barrier only when its flag is set. */
  ghost predicate RankOk(p: Plan, w: World, r: Rank)
    requires r < |w.ranks|
  {
    var s := w.ranks[r];
    && s.written <= s.begun
    && (s.phase == AtBarrier ==> s.written == Expected(p, s.save, r).Keys)
    && (forall k: nat :: r in Arrived(w, k) ==> k <= s.save)
    && (s.phase == Writing || s.phase == AtBarrier ==> r !in Arrived(w, s.save))
    && (r in Arrived(w, s.save) ==> s.written == Expected(p, s.save, r).Keys)
    && (s.phase == LastArrived ==> |Arrived(w, s.save)| == p.ranks)
    && (s.phase == Passed || s.phase == Finished ==> s.save in w.lastMember)
    && (forall k: nat :: k < s.save ==> k in w.lastMember)
  }

  /** Rank 0 has renamed save k and moved on. */
  predicate CommittedBy(w: World, k: nat) {
    && 0 < |w.ranks| && k <= w.ranks[0].save
    && (k == w.ranks[0].save ==> w.ranks[0].phase == Finished || w.ranks[0].phase == Dead)
  }

  ghost predicate BarrierOk(p: Plan, w: World) {
    && (forall k: nat :: Members(w, k) == |Arrived(w, k)|)
    && (forall k: nat, r :: r in Arrived(w, k) ==> r < p.ranks)
    && (forall k :: k in w.lastMember ==> |Arrived(w, k)| == p.ranks)
    && (forall k :: k in w.committed ==> k in w.lastMember && CommittedBy(w, k))
  }

  ghost predicate Inv(p: Plan, w: World) {
    && |w.ranks| == p.ranks && ValidPlan(p)
    && FilesOk(p, w) && PassedArePopulated(p, w) && BarrierOk(p, w) && forall r: Rank :: r < |w.ranks| ==> RankOk(p, w, r)
  }

  /** If as many ranks have arrived as there are, all of them have. */
  lemma {:induction false} FullSet(s: set<nat>, n: nat)
    requires |s| == n && forall x :: x in s ==> x < n
    ensures forall x: nat :: x < n ==> x in s
  {
    if n > 0 {
      if n - 1 in s {
        FullSet(s - {n - 1}, n - 1);
      } else {
        SmallSet(s, n - 1);
      }
    }
  }

  lemma {:induction false} SmallSet(s: set<nat>, n: nat)
    requires forall x :: x in s ==> x < n
    ensures |s| <= n
  {
    if n > 0 {
      SmallSet(s - {n - 1}, n - 1);
    } else {
      assert s == {};
    }
  }

  lemma SetFlagMeansAllArrived(p: Plan, w: World, k: nat)
    requires Inv(p, w) && k in w.lastMember
    ensures forall r: Rank :: r < p.ranks ==> r in Arrived(w, k)
  {
    FullSet(Arrived(w, k), p.ranks);
  }

  lemma SetFlagMeansAllWrote(p: Plan, w: World, k: nat)
    requires Inv(p, w) && k in w.lastMember
    ensures forall r: Rank, f :: r < p.ranks && f in Expected(p, k, r) ==> Wrote(w, k, r, f)
  {
    SetFlagMeansAllArrived(p, w, k);
    forall r: Rank, f | r < p.ranks && f in Expected(p, k, r) ensures Wrote(w, k, r, f) {
      assert RankOk(p, w, r);
    }
  }

  /** Once the flag of a save is set, all its files are complete: in the final directory if
      it is committed, and in the temporary one as long as it can be. */
  lemma SetFlagMeansAllWritten(p: Plan, w: World, k: nat)
    requires Inv(p, w) && k in w.lastMember && !Overwritten(p, k)
    ensures k in w.committed ==> HoldsSave(p, w.fs, p.finalPath(k), k)
    ensures k !in w.committed && !Populated(w.fs, p.finalPath(k)) ==> HoldsSave(p, w.fs, TempPath(p, k), k)
  {
    SetFlagMeansAllWrote(p, w, k);
    assert forall r: Rank, f :: r < p.ranks && f in Expected(p, k, r) ==> FileOk(p, w, k, r, f);
  }

  lemma TempPathsDiffer(p: Plan, j: nat, k: nat)
    ensures TempPath(p, j) == TempPath(p, k) ==> p.finalPath(j) == p.finalPath(k)
  {
    if TempPath(p, j) == TempPath(p, k) {
      assert TempPath(p, j)[|p.prefix|..] == p.finalPath(j);
      assert TempPath(p, k)[|p.prefix|..] == p.finalPath(k);
    }
  }

  /** While a rank writes save s, no rank has finished a file of a later save. */
  lemma NoneIsAhead(p: Plan, w: World, r: Rank, k: nat, q: Rank, f: string)
    requires Inv(p, w) && InPhase(w, r, Writing) && Wrote(w, k, q, f)
    ensures k <= w.ranks[r].save
  {
    var s := w.ranks[r].save;
    assert RankOk(p, w, r) && RankOk(p, w, q);
    if s in w.lastMember {
      SetFlagMeansAllArrived(p, w, s);
    }
  }

  lemma WritingSaveIsNotCommitted(p: Plan, w: World, r: Rank)
    requires Inv(p, w) && InPhase(w, r, Writing)
    ensures w.ranks[r].save !in w.committed
  {
    assert RankOk(p, w, r);
    if w.ranks[r].save in w.committed {
      SetFlagMeansAllArrived(p, w, w.ranks[r].save);
    }
  }

  /** Rank 0 is at most one save behind. */
  lemma FirstIsNear(p: Plan, w: World, r: Rank, k: nat)
    requires Inv(p, w) && r < |w.ranks| && k + 1 < w.ranks[r].save
    ensures PassedByFirst(w, k)
  {
    var j := w.ranks[r].save - 1;
    assert RankOk(p, w, r) && RankOk(p, w, 0);
    SetFlagMeansAllArrived(p, w, j);
  }

  /** A file being opened or closed overwrites no finished file that its save still needs. */
  lemma NothingIsOverwritten(p: Plan, w: World, step: Step, k: nat, q: Rank)
    requires Inv(p, w) && Enabled(p, w, step) && (step.OpenFile? || step.CloseFile?)
    requires step.file in Expected(p, k, q) && Wrote(w, k, q, step.file) && !Overwritten(p, k)
    requires TempPath(p, k) == TempPath(p, w.ranks[step.rank].save)
    ensures Populated(w.fs, p.finalPath(k)) || (k == w.ranks[step.rank].save && q == step.rank && step.CloseFile?)
  {
    var r := step.rank;
    var s := w.ranks[r].save;
    assert RankOk(p, w, r);
    NoneIsAhead(p, w, r, k, q, step.file);
    TempPathsDiffer(p, k, s);
    assert k + 1 == s && r > 0 ==> Clash(p, k, q, r, step.file);
    if k + 1 < s { FirstIsNear(p, w, r, k); }
  }

  lemma FileStepKeepsFile(p: Plan, w: World, step: Step, k: nat, q: Rank, f: string)
    requires Inv(p, w) && Enabled(p, w, step) && (step.OpenFile? || step.CloseFile?)
    requires f in Expected(p, k, q) && Wrote(w, k, q, f)
    ensures FileOk(p, Next(p, w, step), k, q, f)
  {
    assert FileOk(p, w, k, q, f);
    if f == step.file && TempPath(p, k) == TempPath(p, w.ranks[step.rank].save) && !Overwritten(p, k) {
      NothingIsOverwritten(p, w, step, k, q);
    }
  }

  lemma FileStepKeepsFiles(p: Plan, w: World, step: Step)
    requires Inv(p, w) && Enabled(p, w, step) && (step.OpenFile? || step.CloseFile?)
    ensures FilesOk(p, Next(p, w, step)) && PassedArePopulated(p, Next(p, w, step))
  {
    var t := Next(p, w, step);
    forall k, q: Rank, f | f in Expected(p, k, q) && Wrote(t, k, q, f) ensures FileOk(p, t, k, q, f) {
      if Wrote(w, k, q, f) {
        FileStepKeepsFile(p, w, step, k, q, f);
      } else {
        WritingSaveIsNotCommitted(p, w, step.rank);
      }
    }
    assert forall k :: PassedByFirst(t, k) <==> PassedByFirst(w, k);
  }

  /** The rename takes along the files of its own save; those of another save to the same
      path go with them, and then that path is taken. */
  lemma CommitKeepsFile(p: Plan, w: World, step: Step, k: nat, q: Rank, f: string)
    requires Inv(p, w) && Enabled(p, w, step) && step.CommitDir?
    requires f in Expected(p, k, q) && Wrote(Next(p, w, step), k, q, f)
    ensures FileOk(p, Next(p, w, step), k, q, f)
  {
    var k0 := w.ranks[step.rank].save;
    assert RankOk(p, w, step.rank);
    assert Wrote(w, k, q, f);
    assert FileOk(p, w, k, q, f);
    TempPathsDiffer(p, k, k0);
  }

  lemma CommitKeepsFiles(p: Plan, w: World, step: Step)
    requires Inv(p, w) && Enabled(p, w, step) && step.CommitDir?
    ensures FilesOk(p, Next(p, w, step)) && PassedArePopulated(p, Next(p, w, step))
  {
    var t, k0 := Next(p, w, step), w.ranks[step.rank].save;
    forall k, q: Rank, f | f in Expected(p, k, q) && Wrote(t, k, q, f) ensures FileOk(p, t, k, q, f) {
      CommitKeepsFile(p, w, step, k, q, f);
    }
    assert RankOk(p, w, step.rank);
    SetFlagMeansAllWrote(p, w, k0);
    forall k, r: Rank, f | PassedByFirst(t, k) && r < p.ranks && f in Expected(p, k, r) ensures Populated(t.fs, p.finalPath(k)) {
      if k == k0 && step.rank == 0 {
        assert Wrote(t, k, r, f) && FileOk(p, t, k, r, f);
        assert FileOk(p, w, k, r, f);
      } else {
        assert PassedByFirst(w, k);
      }
    }
  }

  lemma OtherStepKeepsFiles(p: Plan, w: World, step: Step)
    requires Inv(p, w) && Enabled(p, w, step) && !step.OpenFile? && !step.CloseFile? && !step.CommitDir?
    ensures FilesOk(p, Next(p, w, step)) && PassedArePopulated(p, Next(p, w, step))
  {
    var r := step.rank;
    var t := Next(p, w, step);
    assert RankOk(p, w, r);
    if step.NextSave? { SetFlagMeansAllArrived(p, w, w.ranks[r].save); }
    forall k, q: Rank, f | f in Expected(p, k, q) && Wrote(t, k, q, f) ensures FileOk(p, t, k, q, f) {
      assert Wrote(w, k, q, f);
      assert FileOk(p, w, k, q, f);
    }
    assert forall k :: PassedByFirst(t, k) ==> PassedByFirst(w, k);
  }

  /** Arriving changes one counter and one set of arrived ranks, by one. */
  lemma ArriveCounts(p: Plan, w: World, r: Rank)
    requires Inv(p, w) && Enabled(p, w, Arrive(r))
    ensures var t, k0 := Next(p, w, Arrive(r)), w.ranks[r].save;
      && (forall k: nat :: Arrived(t, k) == if k == k0 then Arrived(w, k0) + {r} else Arrived(w, k))
      && (forall k: nat :: Members(t, k) == |Arrived(t, k)|)
      && |Arrived(t, k0)| <= p.ranks && k0 !in w.lastMember
  {
    var t, k0 := Next(p, w, Arrive(r)), w.ranks[r].save;
    assert RankOk(p, w, r);
    assert Members(w, k0) == |Arrived(w, k0)|;
    SmallSet(Arrived(w, k0) + {r}, p.ranks);
  }

  lemma ArriveKeepsBarrier(p: Plan, w: World, r: Rank)
    requires Inv(p, w) && Enabled(p, w, Arrive(r))
    ensures BarrierOk(p, Next(p, w, Arrive(r)))
  {
    ArriveCounts(p, w, r);
    assert RankOk(p, w, r) && RankOk(p, w, 0);
  }

  lemma ArriveKeepsRank(p: Plan, w: World, r: Rank, q: Rank)
    requires Inv(p, w) && Enabled(p, w, Arrive(r)) && q < |w.ranks|
    ensures RankOk(p, Next(p, w, Arrive(r)), q)
  {
    ArriveCounts(p, w, r);
    assert RankOk(p, w, r) && RankOk(p, w, q);
  }

  lemma StepKeepsBarrier(p: Plan, w: World, step: Step)
    requires Inv(p, w) && Enabled(p, w, step) && !step.Arrive?
    ensures BarrierOk(p, Next(p, w, step))
  {
    var t := Next(p, w, step);
    assert RankOk(p, w, step.rank) && RankOk(p, w, 0);
    assert forall k: nat :: Arrived(t, k) == Arrived(w, k) && Members(t, k) == Members(w, k);
  }

  lemma StepKeepsRanks(p: Plan, w: World, step: Step, q: Rank)
    requires Inv(p, w) && Enabled(p, w, step) && q < |w.ranks| && !step.Arrive?
    ensures RankOk(p, Next(p, w, step), q)
  {
    var t := Next(p, w, step);
    assert RankOk(p, w, q);
    assert forall k: nat :: Arrived(t, k) == Arrived(w, k);
    if step.rank != q {
      assert t.ranks[q] == w.ranks[q];
    } else if step.NextSave? {
      SetFlagMeansAllArrived(p, w, w.ranks[q].save);
    }
  }

  lemma NextKeepsInv(p: Plan, w: World, step: Step)
    requires Inv(p, w) && Enabled(p, w, step)
    ensures Inv(p, Next(p, w, step))
  {
    if step.OpenFile? || step.CloseFile? {
      FileStepKeepsFiles(p, w, step);
    } else if step.CommitDir? {
      CommitKeepsFiles(p, w, step);
    } else {
      OtherStepKeepsFiles(p, w, step);
    }
    if step.Arrive? {
      ArriveKeepsBarrier(p, w, step.rank);
      forall q: Rank | q < |w.ranks| ensures RankOk(p, Next(p, w, step), q) {
        ArriveKeepsRank(p, w, step.rank, q);
      }
    } else {
      StepKeepsBarrier(p, w, step);
      forall q: Rank | q < |w.ranks| ensures RankOk(p, Next(p, w, step), q) {
        StepKeepsRanks(p, w, step, q);
      }
    }
  }

  // ----- runs

  ghost predicate IsRun(p: Plan, w: World, steps: seq<Step>)
    decreases |steps|
  {
    steps == [] || (Enabled(p, w, steps[0]) && IsRun(p, Next(p, w, steps[0]), steps[1..]))
  }

  ghost function After(p: Plan, w: World, steps: seq<Step>): World
    requires IsRun(p, w, steps)
    decreases |steps|
  {
    if steps == [] then w else After(p, Next(p, w, steps[0]), steps[1..])
  }

  lemma StartIsOk(p: Plan, w: World)
    requires ValidPlan(p) && Start(p, w)
    ensures Inv(p, w)
  {
    forall r: Rank | r < |w.ranks| ensures RankOk(p, w, r) {
      assert forall k: nat :: Arrived(w, k) == {};
    }
  }

  lemma {:induction false} RunKeepsInv(p: Plan, w: World, steps: seq<Step>)
    requires Inv(p, w) && IsRun(p, w, steps)
    ensures Inv(p, After(p, w, steps))
    decreases |steps|
  {
    if steps != [] {
      NextKeepsInv(p, w, steps[0]);
      RunKeepsInv(p, Next(p, w, steps[0]), steps[1..]);
    }
  }

  ghost predicate Reachable(p: Plan, w: World) {
    exists first, steps :: Start(p, first) && IsRun(p, first, steps) && After(p, first, steps) == w
  }

  lemma ReachableKeepsInv(p: Plan, w: World)
    requires ValidPlan(p) && Reachable(p, w)
    ensures Inv(p, w)
  {
    var first, steps :| Start(p, first) && IsRun(p, first, steps) && After(p, first, steps) == w;
    StartIsOk(p, first);
    RunKeepsInv(p, first, steps);
  }

  ghost predicate IsTemp(p: Plan, d: Path) {
    exists k: nat :: d == TempPath(p, k)
  }

  /** The commit point: the only step that changes a path that is not a temporary directory
      is rank 0's rename, after all ranks have finished every file of the save and have
      arrived at its barrier; the path then holds all of them and rank 0's metadata. */
  lemma OnlyTheCommitTouchesFinalPaths(p: Plan, w: World, step: Step, d: Path)
    requires ValidPlan(p) && Reachable(p, w) && Enabled(p, w, step) && !IsTemp(p, d)
    requires (d in w.fs) != (d in Next(p, w, step).fs) || (d in w.fs && w.fs[d] != Next(p, w, step).fs[d])
    ensures step == CommitDir(0) && d == p.finalPath(w.ranks[0].save)
    ensures forall r: Rank :: r < p.ranks ==> r in Arrived(w, w.ranks[0].save)
    ensures !Overwritten(p, w.ranks[0].save) ==>
      && HoldsSave(p, w.fs, TempPath(p, w.ranks[0].save), w.ranks[0].save)
      && HoldsSave(p, Next(p, w, step).fs, d, w.ranks[0].save)
  {
    ReachableKeepsInv(p, w);
    var r := step.rank;
    var k := w.ranks[r].save;
    assert d != TempPath(p, k);
    assert RankOk(p, w, r);
    SetFlagMeansAllArrived(p, w, k);
    if !Overwritten(p, k) {
      SetFlagMeansAllWritten(p, w, k);
    }
    assert k !in w.committed;
  }

  /** What the commit does with a save that has files: onto a free path it publishes the
      save and leaves no temporary directory; onto an occupied one it changes nothing and
      ends rank 0. */
  lemma CommitPublishes(p: Plan, w: World, q: Rank, f: string)
    requires ValidPlan(p) && Reachable(p, w) && InPhase(w, 0, Passed) && q < p.ranks && f in Expected(p, w.ranks[0].save, q)
    ensures var k, t := w.ranks[0].save, Next(p, w, CommitDir(0));
      if Populated(w.fs, p.finalPath(k)) then
        t.fs == w.fs && t.committed == w.committed && (TempPath(p, k) in w.fs ==> t.ranks[0].phase == Dead)
      else
        && t.committed == w.committed + {k} && t.ranks[0].phase == Finished
        && TempPath(p, k) !in t.fs && Populated(t.fs, p.finalPath(k))
        && (!Overwritten(p, k) ==> HoldsSave(p, t.fs, p.finalPath(k), k))
  {
    ReachableKeepsInv(p, w);
    var k := w.ranks[0].save;
    assert RankOk(p, w, 0);
    SetFlagMeansAllWrote(p, w, k);
    assert FileOk(p, w, k, q, f);
    if !Overwritten(p, k) { SetFlagMeansAllWritten(p, w, k); }
  }

  /** Whoever waits has been counted, and once all are counted the flag is set, or about to
      be, or a rank has stopped. */
  ghost predicate BarrierServes(p: Plan, w: World) {
    WaitersAreCounted(w) && (forall k: nat :: |Arrived(w, k)| == p.ranks > 0 ==> FlagComes(w, k))
  }

  ghost predicate WaitersAreCounted(w: World) {
    forall r: Rank :: InPhase(w, r, Waiting) || InPhase(w, r, LastArrived) ==> r in Arrived(w, w.ranks[r].save)
  }

  ghost predicate FlagComes(w: World, k: nat) {
    k in w.lastMember || exists r: Rank :: SetsFlag(w, r, k)
  }

  predicate SetsFlag(w: World, r: Rank, k: nat) {
    InPhase(w, r, Dead) || (InPhase(w, r, LastArrived) && w.ranks[r].save == k)
  }

  lemma ArriveCountsRank(p: Plan, w: World, r: Rank)
    requires WaitersAreCounted(w) && Enabled(p, w, Arrive(r))
    ensures WaitersAreCounted(Next(p, w, Arrive(r)))
  {
  }

  /** The last to arrive is about to set the flag; a flag that was to come still is. */
  lemma ArriveKeepsFlag(p: Plan, w: World, r: Rank, k: nat)
    requires Inv(p, w) && Enabled(p, w, Arrive(r)) && |Arrived(Next(p, w, Arrive(r)), k)| == p.ranks
    requires k != w.ranks[r].save ==> FlagComes(w, k)
    ensures FlagComes(Next(p, w, Arrive(r)), k)
  {
    var t := Next(p, w, Arrive(r));
    if k == w.ranks[r].save {
      ArriveCounts(p, w, r);
      assert Members(t, k) == |Arrived(t, k)|;
      assert SetsFlag(t, r, k);
    } else if k !in w.lastMember {
      var q: Rank :| SetsFlag(w, q, k);
      assert SetsFlag(t, q, k);
    }
  }

  lemma ArriveKeepsServing(p: Plan, w: World, r: Rank)
    requires Inv(p, w) && BarrierServes(p, w) && Enabled(p, w, Arrive(r))
    ensures BarrierServes(p, Next(p, w, Arrive(r)))
  {
    ArriveCountsRank(p, w, r);
    forall k: nat | |Arrived(Next(p, w, Arrive(r)), k)| == p.ranks ensures FlagComes(Next(p, w, Arrive(r)), k) {
      assert k != w.ranks[r].save ==> Arrived(Next(p, w, Arrive(r)), k) == Arrived(w, k);
      ArriveKeepsFlag(p, w, r, k);
    }
  }

  lemma StepCountsRanks(p: Plan, w: World, step: Step)
    requires WaitersAreCounted(w) && Enabled(p, w, step) && !step.Arrive?
    ensures WaitersAreCounted(Next(p, w, step)) && Next(p, w, step).arrived == w.arrived
  {
  }

  lemma StepKeepsFlag(p: Plan, w: World, step: Step, k: nat)
    requires FlagComes(w, k) && Enabled(p, w, step) && !step.Arrive?
    ensures FlagComes(Next(p, w, step), k)
  {
    if k !in w.lastMember {
      var q: Rank :| SetsFlag(w, q, k);
      assert SetsFlag(Next(p, w, step), q, k) || k in Next(p, w, step).lastMember;
    }
  }

  lemma StepKeepsServing(p: Plan, w: World, step: Step)
    requires BarrierServes(p, w) && Enabled(p, w, step) && !step.Arrive?
    ensures BarrierServes(p, Next(p, w, step))
  {
    StepCountsRanks(p, w, step);
    forall k: nat | |Arrived(w, k)| == p.ranks > 0 ensures FlagComes(Next(p, w, step), k) {
      StepKeepsFlag(p, w, step, k);
    }
  }

  lemma {:induction false} RunKeepsServing(p: Plan, w: World, steps: seq<Step>)
    requires Inv(p, w) && BarrierServes(p, w) && IsRun(p, w, steps)
    ensures BarrierServes(p, After(p, w, steps))
    decreases |steps|
  {
    if steps != [] {
      if steps[0].Arrive? { ArriveKeepsServing(p, w, steps[0].rank); } else { StepKeepsServing(p, w, steps[0]); }
      NextKeepsInv(p, w, steps[0]);
      RunKeepsServing(p, Next(p, w, steps[0]), steps[1..]);
    }
  }

  lemma ReachableServes(p: Plan, w: World)
    requires ValidPlan(p) && Reachable(p, w)
    ensures BarrierServes(p, w)
  {
    var first, steps :| Start(p, first) && IsRun(p, first, steps) && After(p, first, steps) == w;
    StartIsOk(p, first);
    assert forall k: nat :: Arrived(first, k) == {};
    RunKeepsServing(p, first, steps);
  }

  /** The rank is not held up by the other ranks. */
  ghost predicate Proceeds(p: Plan, w: World, r: Rank) {
    InPhase(w, r, Writing) || exists step: Step :: step.rank == r && !step.Die? && Enabled(p, w, step)
  }

  lemma {:induction false} AllCounted(s: set<nat>, n: nat)
    requires forall x: nat :: x in s <==> x < n
    ensures |s| == n
  {
    if n > 0 { AllCounted(s - {n - 1}, n - 1); } else { assert s == {}; }
  }

  /** A waiting rank that is behind another one can pass. */
  lemma BehindCanPass(p: Plan, w: World, r: Rank, q: Rank)
    requires Inv(p, w) && r < p.ranks && q < p.ranks && InPhase(w, r, Waiting) && w.ranks[r].save < w.ranks[q].save
    ensures Proceeds(p, w, r)
  {
    assert RankOk(p, w, q);
    assert Enabled(p, w, Pass(r));
  }

  /** The barrier never hangs: as long as no rank has stopped, some rank is writing its
      files or can take its next step. */
  lemma BarrierNeverHangs(p: Plan, w: World)
    requires ValidPlan(p) && Reachable(p, w) && forall r: Rank :: !InPhase(w, r, Dead)
    ensures exists r: Rank :: r < p.ranks && Proceeds(p, w, r)
  {
    ReachableKeepsInv(p, w);
    ReachableServes(p, w);
    if r: Rank :| r < p.ranks && !InPhase(w, r, Waiting) {
      OutsideProceeds(p, w, r);
    } else if r: Rank :| r < p.ranks && w.ranks[r].save != w.ranks[0].save {
      if w.ranks[r].save < w.ranks[0].save { BehindCanPass(p, w, r, 0); } else { BehindCanPass(p, w, 0, r); }
    } else {
      TogetherCanPass(p, w);
    }
  }

  /** If all ranks wait at one save, the flag is set. */
  lemma TogetherCanPass(p: Plan, w: World)
    requires Inv(p, w) && BarrierServes(p, w)
    requires forall r: Rank :: r < p.ranks ==> InPhase(w, r, Waiting) && w.ranks[r].save == w.ranks[0].save
    ensures Proceeds(p, w, 0)
  {
    var k := w.ranks[0].save;
    forall r: Rank ensures r in Arrived(w, k) <==> r < p.ranks {
      if r < p.ranks { assert InPhase(w, r, Waiting); }
    }
    AllCounted(Arrived(w, k), p.ranks);
    assert forall r: Rank :: r < p.ranks ==> InPhase(w, r, Waiting);
    assert Enabled(p, w, Pass(0));
  }

  lemma OutsideProceeds(p: Plan, w: World, r: Rank)
    requires Inv(p, w) && r < p.ranks && !InPhase(w, r, Waiting) && !InPhase(w, r, Dead)
    ensures Proceeds(p, w, r)
  {
    match w.ranks[r].phase
    case Writing =>
    case AtBarrier => assert Enabled(p, w, Arrive(r));
    case LastArrived => assert Enabled(p, w, SetFlag(r));
    case Passed => assert Enabled(p, w, CommitDir(r));
    case Finished => assert Enabled(p, w, NextSave(r));
    case _ =>
  }

  /** Rank 0 begins the metadata only after all its other files are finished. */
  predicate MetadataWaits(p: Plan, w: World) {
    0 < |w.ranks| ==>
      var s := w.ranks[0];
      METADATA in s.begun && METADATA !in p.files(s.save, 0) ==> p.files(s.save, 0).Keys <= s.written
  }

  lemma StepKeepsMetadataLast(p: Plan, w: World, step: Step)
    requires MetadataWaits(p, w) && Enabled(p, w, step)
    ensures MetadataWaits(p, Next(p, w, step))
  {
  }

  lemma {:induction false} RunKeepsMetadataLast(p: Plan, w: World, steps: seq<Step>)
    requires MetadataWaits(p, w) && IsRun(p, w, steps)
    ensures MetadataWaits(p, After(p, w, steps))
    decreases |steps|
  {
    if steps != [] {
      StepKeepsMetadataLast(p, w, steps[0]);
      RunKeepsMetadataLast(p, Next(p, w, steps[0]), steps[1..]);
    }
  }

  lemma MetadataIsLast(p: Plan, w: World)
    requires Reachable(p, w)
    ensures MetadataWaits(p, w)
  {
    var first, steps :| Start(p, first) && IsRun(p, first, steps) && After(p, first, steps) == w;
    RunKeepsMetadataLast(p, first, steps);
  }

  /** A committed checkpoint is complete, and stays so in every later state, unless the next
      save goes to the same path and rewrites one of its files. */
  lemma CommittedIsComplete(p: Plan, w: World, k: nat)
    requires ValidPlan(p) && Reachable(p, w) && k in w.committed && !Overwritten(p, k)
    ensures HoldsSave(p, w.fs, p.finalPath(k), k)
  {
    ReachableKeepsInv(p, w);
    SetFlagMeansAllWritten(p, w, k);
  }

  /** If rank 0 was given metadata, it is among what a committed checkpoint holds. */
  lemma CommittedHoldsMetadata(p: Plan, w: World, k: nat)
    requires ValidPlan(p) && Reachable(p, w) && k in w.committed && !Overwritten(p, k)
    requires p.metadata(k).Some? && p.metadata(k).value != []
    ensures HasFile(w.fs, p.finalPath(k), METADATA, p.metadata(k).value)
  {
    CommittedIsComplete(p, w, k);
    assert METADATA in Expected(p, k, 0);
  }

  lemma StepKeepsPopulated(p: Plan, w: World, step: Step, d: Path)
    requires Enabled(p, w, step) && !IsTemp(p, d) && Populated(w.fs, d)
    ensures d in Next(p, w, step).fs && Next(p, w, step).fs[d] == w.fs[d]
  {
    assert d != TempPath(p, w.ranks[step.rank].save);
  }

  /** A populated final directory, or a file in its place, is never changed by any run. */
  lemma {:induction false} PopulatedIsNeverChanged(p: Plan, w: World, steps: seq<Step>, d: Path)
    requires IsRun(p, w, steps) && !IsTemp(p, d) && Populated(w.fs, d)
    ensures d in After(p, w, steps).fs && After(p, w, steps).fs[d] == w.fs[d]
    decreases |steps|
  {
    if steps != [] {
      StepKeepsPopulated(p, w, steps[0], d);
      PopulatedIsNeverChanged(p, Next(p, w, steps[0]), steps[1..], d);
    }
  }

  predicate SameAt(a: FileSystem, b: FileSystem, d: Path) {
    (d in a <==> d in b) && (d in a && d in b ==> a[d] == b[d])
  }

  /** Saves to a path. */
  ghost predicate CommittedTo(p: Plan, w: World, d: Path) {
    exists k :: k in w.committed && p.finalPath(k) == d
  }

  lemma StepKeepsUncommitted(p: Plan, w: World, step: Step, d: Path)
    requires Enabled(p, w, step) && !IsTemp(p, d) && !CommittedTo(p, Next(p, w, step), d)
    ensures !CommittedTo(p, w, d) && SameAt(w.fs, Next(p, w, step).fs, d)
  {
    var j, t := w.ranks[step.rank].save, Next(p, w, step);
    assert d != TempPath(p, j);
    assert j in t.committed ==> p.finalPath(j) != d;
    assert forall k :: k in w.committed ==> k in t.committed;
  }

  /** Until a save to it is committed, whichever ranks stop wherever, a final path is as it
      was at the start. */
  lemma {:induction false} UntouchedUntilCommit(p: Plan, w: World, steps: seq<Step>, d: Path)
    requires IsRun(p, w, steps) && !IsTemp(p, d) && !CommittedTo(p, After(p, w, steps), d)
    ensures !CommittedTo(p, w, d) && SameAt(w.fs, After(p, w, steps).fs, d)
    decreases |steps|
  {
    if steps != [] {
      UntouchedUntilCommit(p, Next(p, w, steps[0]), steps[1..], d);
      StepKeepsUncommitted(p, w, steps[0], d);
    }
  }
}
