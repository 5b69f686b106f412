/** When a committed checkpoint can be incomplete (checkpoint_writer.py, barriers.py). */
module CommitConditions {
  import opened Wrappers
  import opened Commit
  import opened CommitRuns

  // A committed save is complete unless the next one overwrites it, and the next one
  // overwrites it in some run as soon as rank 0 can get to commit it at all.

  // ----- only such saves are committed

  ghost predicate FilesStay(p: Plan, w: World) {
    forall i: nat, j: nat, r: Rank, f :: SharePath(p, i, j) && f in Expected(p, j, r) && Wrote(w, j, r, f) && (r == 0 || i + 1 < j) ==>
      HasEntry(w.fs, TempPath(p, j), f)
  }

  ghost predicate CommitsAlone(p: Plan, w: World) {
    forall i: nat, j: nat :: SharePath(p, i, j) ==> j !in w.committed
  }

  ghost predicate PassesInTurn(p: Plan, w: World) {
    forall i: nat, j: nat :: SharePath(p, i, j) && PassedByFirst(w, j) ==> j == i + 1 && Expected(p, j, 0) == map[]
  }

  ghost predicate SharingOk(p: Plan, w: World) {
    Inv(p, w) && FilesStay(p, w) && CommitsAlone(p, w) && PassesInTurn(p, w)
  }

  /** If an earlier save has the path of the one rank 0 is in, the path is taken. */
  lemma SharedIsPopulated(p: Plan, w: World, i: nat, j: nat)
    requires Inv(p, w) && SharePath(p, i, j) && PassedByFirst(w, i)
    ensures Populated(w.fs, p.finalPath(j))
  {
    var q: Rank, f :| q < p.ranks && f in Expected(p, i, q);
  }

  lemma StepKeepsFileThere(p: Plan, w: World, step: Step, i: nat, j: nat, r: Rank, f: string)
    requires SharingOk(p, w) && Enabled(p, w, step) && SharePath(p, i, j) && (r == 0 || i + 1 < j)
    requires f in Expected(p, j, r) && Wrote(Next(p, w, step), j, r, f)
    ensures HasEntry(Next(p, w, step).fs, TempPath(p, j), f)
  {
    var k0 := w.ranks[step.rank].save;
    assert RankOk(p, w, step.rank);
    if step.NextSave? { SetFlagMeansAllArrived(p, w, k0); }
    if step.CommitDir? && step.rank == 0 {
      TempPathsDiffer(p, j, k0);
      assert RankOk(p, w, r);
      if k0 + 1 < w.ranks[r].save { FirstIsNear(p, w, r, k0); }
      if i < k0 { SharedIsPopulated(p, w, i, j); }
    }
  }

  lemma CommitFindsFiles(p: Plan, w: World, i: nat, j: nat)
    requires SharingOk(p, w) && SharePath(p, i, j) && InPhase(w, 0, Passed) && w.ranks[0].save == j
    ensures TempPath(p, j) !in w.fs ==> j == i + 1 && Expected(p, j, 0) == map[]
    ensures Populated(w.fs, p.finalPath(j))
  {
    assert RankOk(p, w, 0);
    SetFlagMeansAllWrote(p, w, j);
    SharedIsPopulated(p, w, i, j);
    var q: Rank, f :| q < p.ranks && f in Expected(p, j, q);
    assert i + 1 < j ==> HasEntry(w.fs, TempPath(p, j), f);
    if Expected(p, j, 0) != map[] {
      var g :| g in Expected(p, j, 0);
      assert HasEntry(w.fs, TempPath(p, j), g);
    }
  }

  lemma StepKeepsSharing(p: Plan, w: World, step: Step)
    requires SharingOk(p, w) && Enabled(p, w, step)
    ensures SharingOk(p, Next(p, w, step))
  {
    var t := Next(p, w, step);
    NextKeepsInv(p, w, step);
    forall i: nat, j: nat, r: Rank, f | SharePath(p, i, j) && f in Expected(p, j, r) && Wrote(t, j, r, f) && (r == 0 || i + 1 < j)
      ensures HasEntry(t.fs, TempPath(p, j), f)
    {
      StepKeepsFileThere(p, w, step, i, j, r, f);
    }
    forall i: nat, j: nat | SharePath(p, i, j)
      ensures j !in t.committed && (PassedByFirst(t, j) ==> j == i + 1 && Expected(p, j, 0) == map[])
    {
      if step.CommitDir? && step.rank == 0 && w.ranks[0].save == j {
        CommitFindsFiles(p, w, i, j);
      }
    }
  }

  lemma {:induction false} RunKeepsSharing(p: Plan, w: World, steps: seq<Step>)
    requires SharingOk(p, w) && IsRun(p, w, steps)
    ensures SharingOk(p, After(p, w, steps))
    decreases |steps|
  {
    if steps != [] {
      StepKeepsSharing(p, w, steps[0]);
      RunKeepsSharing(p, Next(p, w, steps[0]), steps[1..]);
    }
  }

  lemma ReachableKeepsSharing(p: Plan, w: World)
    requires ValidPlan(p) && Reachable(p, w)
    ensures SharingOk(p, w)
  {
    var first, steps :| Start(p, first) && IsRun(p, first, steps) && After(p, first, steps) == w;
    StartIsOk(p, first);
    RunKeepsSharing(p, first, steps);
  }

  lemma CommittedCouldBe(p: Plan, w: World, k: nat)
    requires ValidPlan(p) && Reachable(p, w) && k in w.committed
    ensures CanCommit(p, k)
  {
    ReachableKeepsSharing(p, w);
    assert CommittedBy(w, k);
    forall i: nat, j: nat | j <= k && SharePath(p, i, j) ensures j == i + 1 && j < k && Expected(p, j, 0) == map[] {
      assert j < k ==> PassedByFirst(w, j);
    }
  }

  // ----- and each of them is committed in some run

  /** If the next save can overwrite a file, a run commits the save while that file is being
      written again. */
  lemma OverwrittenIsIncomplete(p: Plan, k: nat) returns (t: World)
    requires ValidPlan(p) && CanCommit(p, k) && Overwritten(p, k)
    ensures Reachable(p, t) && k in t.committed && !HoldsSave(p, t.fs, p.finalPath(k), k)
  {
    var q: Rank, r: Rank, f :| Clash(p, k, q, r, f);
    var w := LevelIsReached(p, k, k);
    var ahead := GetAhead(p, w, k);
    PathIsFree(p, ahead.fs - {TempPath(p, k)}, k);
    var begun := Opened(p, ahead, r, f);
    t := FirstGoesOn(p, begun, k);
    assert !HasFile(t.fs, p.finalPath(k), f, Expected(p, k, q)[f]);
  }

  /** Exactly when every committed checkpoint is complete, over all runs: no save that can be
      committed is followed by one to the same path in which a rank other than rank 0 writes
      a file of the same name. */
  lemma CommittedAreCompleteIff(p: Plan)
    requires ValidPlan(p)
    ensures (forall w, k :: Reachable(p, w) && k in w.committed ==> HoldsSave(p, w.fs, p.finalPath(k), k))
      <==> (forall k :: CanCommit(p, k) ==> !Overwritten(p, k))
  {
    if k :| CanCommit(p, k) && Overwritten(p, k) {
      var t := OverwrittenIsIncomplete(p, k);
    } else {
      forall w, k | Reachable(p, w) && k in w.committed ensures HoldsSave(p, w.fs, p.finalPath(k), k) {
        CommittedCouldBe(p, w, k);
        CommittedIsComplete(p, w, k);
      }
    }
  }

  /** Each of two ranks writes a file of one name in every save. */
  function TwoRanks(finalPath: nat -> Path): Plan {
    Plan(2, finalPath, "tmp_", (_, r) => if r == 0 then map["a" := [1]] else if r == 1 then map["b" := [2]] else map[], _ => None)
  }

  /** If the second save goes to the path of the first, a run commits the first while rank
      1's file of the second is being written over it. */
  lemma SamePathCommitsPartialFile() returns (w: World)
    ensures var p := TwoRanks(_ => "ckpt"); ValidPlan(p) && Reachable(p, w) && 0 in w.committed && !HoldsSave(p, w.fs, "ckpt", 0)
  {
    var p := TwoRanks(_ => "ckpt");
    assert forall k, q, r, f :: q != r && f in Expected(p, k, q) ==> f !in Expected(p, k, r);
    assert |TempPath(p, 0)| > |p.finalPath(0)|;
    assert Clash(p, 0, 1, 1, "b");
    w := OverwrittenIsIncomplete(p, 0);
  }

  /** The paths x, y, x, x, x, ... */
  function BackToFirst(k: nat): Path { if k == 1 then "y" else "x" }

  /** Two saves in a row that go to one path do no harm if an earlier one went there: the
      rename of the first of the two is refused. */
  lemma BackToFirstIsSafe(w: World, k: nat)
    requires Reachable(TwoRanks(BackToFirst), w) && k in w.committed
    ensures BackToFirst(2) == BackToFirst(3) && HoldsSave(TwoRanks(BackToFirst), w.fs, BackToFirst(k), k)
  {
    var p := TwoRanks(BackToFirst);
    assert forall j, q, r, f :: q != r && f in Expected(p, j, q) ==> f !in Expected(p, j, r);
    forall j: nat, i: nat ensures p.finalPath(i) != TempPath(p, j) {
      assert |TempPath(p, j)| > |p.finalPath(i)|;
    }
    assert "a" in Expected(p, 0, 0) && "a" in Expected(p, 2, 0);
    assert SharePath(p, 0, 2);
    CommittedCouldBe(p, w, k);
    CommittedIsComplete(p, w, k);
  }
}
