/**
 Runs of the commit protocol that get as far as they can: all ranks write a save, meet at its
 barrier and go on, rank 0 last, so that each save in turn is renamed onto its final path, for
 every save before which no rename is refused (checkpoint_writer.py, barriers.py). They are
 built step by step from the start, with nothing on the file system. Where two saves in a row go
 to one path and rank 0 writes nothing in the second, the other ranks write both before rank 0
 renames the first, and it then finds nothing to rename.
 */
module CommitRuns {
  import opened Wrappers
  import opened Commit

  ghost predicate WritesFiles(p: Plan, k: nat) {
    exists q: Rank, f :: q < p.ranks && f in Expected(p, k, q)
  }

  /** Two saves with files go to one path. */
  ghost predicate SharePath(p: Plan, i: nat, j: nat) {
    i < j && p.finalPath(i) == p.finalPath(j) && WritesFiles(p, i) && WritesFiles(p, j)
  }

  /** No rename before the one of save k is refused: two of the saves up to k share a path
      only if the second comes right after the first, before k, and rank 0 writes nothing in it. */
  ghost predicate CanCommit(p: Plan, k: nat) {
    forall i: nat, j: nat :: j <= k && SharePath(p, i, j) ==> j == i + 1 && j < k && Expected(p, j, 0) == map[]
  }

  // ----- taking one step more

  lemma {:induction false} RunAppend(p: Plan, w: World, steps: seq<Step>, step: Step)
    requires IsRun(p, w, steps) && Enabled(p, After(p, w, steps), step)
    ensures IsRun(p, w, steps + [step]) && After(p, w, steps + [step]) == Next(p, After(p, w, steps), step)
    decreases |steps|
  {
    var all := steps + [step];
    if steps == [] {
      assert all[1..] == [];
    } else {
      assert all[0] == steps[0] && all[1..] == steps[1..] + [step];
      RunAppend(p, Next(p, w, steps[0]), steps[1..], step);
    }
  }

  lemma Take(p: Plan, w: World, step: Step) returns (t: World)
    requires Reachable(p, w) && Enabled(p, w, step)
    ensures t == Next(p, w, step) && Reachable(p, t)
  {
    var first, steps :| Start(p, first) && IsRun(p, first, steps) && After(p, first, steps) == w;
    RunAppend(p, first, steps, step);
    t := Next(p, w, step);
  }

  /** A rank in save k with all its files written. */
  function Full(p: Plan, k: nat, r: Rank, phase: Phase): RankState {
    RankState(k, phase, Expected(p, k, r).Keys, Expected(p, k, r).Keys)
  }

  function Entering(k: nat): RankState { RankState(k, Writing, {}, {}) }

  /** Only the temporary directory of save k and the states of the ranks differ. */
  predicate OnlyTemp(p: Plan, w: World, t: World, k: nat) {
    && t == w.(fs := t.fs, ranks := t.ranks) && |t.ranks| == |w.ranks|
    && t.fs - {TempPath(p, k)} == w.fs - {TempPath(p, k)}
    && (TempPath(p, k) in t.fs ==> t.fs[TempPath(p, k)].Directory?)
  }

  predicate TempIsDirectory(p: Plan, w: World, k: nat) {
    TempPath(p, k) in w.fs ==> w.fs[TempPath(p, k)].Directory?
  }

  /** The next file of a rank, its metadata last. */
  ghost predicate IsNextFile(p: Plan, w: World, r: Rank, f: string) {
    && InPhase(w, r, Writing) && f in Expected(p, w.ranks[r].save, r) && f !in w.ranks[r].begun
    && (f in p.files(w.ranks[r].save, r) || p.files(w.ranks[r].save, r).Keys <= w.ranks[r].written)
  }

  lemma Opened(p: Plan, w: World, r: Rank, f: string) returns (t: World)
    requires Reachable(p, w) && IsNextFile(p, w, r, f) && TempIsDirectory(p, w, w.ranks[r].save)
    ensures Reachable(p, t) && OnlyTemp(p, w, t, w.ranks[r].save) && HasEntry(t.fs, TempPath(p, w.ranks[r].save), f)
    ensures t.fs[TempPath(p, w.ranks[r].save)].entries[f] == Partial
    ensures t.ranks == w.ranks[r := w.ranks[r].(begun := w.ranks[r].begun + {f})]
  {
    t := Take(p, w, OpenFile(r, f));
  }

  lemma Closed(p: Plan, w: World, r: Rank, f: string) returns (t: World)
    requires Reachable(p, w) && InPhase(w, r, Writing) && f in Expected(p, w.ranks[r].save, r)
    requires f in w.ranks[r].begun && f !in w.ranks[r].written && HasEntry(w.fs, TempPath(p, w.ranks[r].save), f)
    ensures Reachable(p, t) && OnlyTemp(p, w, t, w.ranks[r].save) && TempPath(p, w.ranks[r].save) in t.fs
    ensures t.ranks == w.ranks[r := w.ranks[r].(written := w.ranks[r].written + {f})]
  {
    t := Take(p, w, CloseFile(r, f));
  }

  lemma WriteOne(p: Plan, w: World, r: Rank) returns (t: World, f: string)
    requires Reachable(p, w) && InPhase(w, r, Writing) && TempIsDirectory(p, w, w.ranks[r].save)
    requires w.ranks[r].begun == w.ranks[r].written < Expected(p, w.ranks[r].save, r).Keys
    ensures Reachable(p, t) && OnlyTemp(p, w, t, w.ranks[r].save) && TempPath(p, w.ranks[r].save) in t.fs
    ensures f in Expected(p, w.ranks[r].save, r).Keys - w.ranks[r].written
    ensures t.ranks == w.ranks[r := RankState(w.ranks[r].save, Writing, w.ranks[r].begun + {f}, w.ranks[r].begun + {f})]
  {
    var own, left := p.files(w.ranks[r].save, r).Keys, Expected(p, w.ranks[r].save, r).Keys - w.ranks[r].written;
    f :| f in left && (own <= w.ranks[r].written || f in own);
    var begun := Opened(p, w, r, f);
    t := Closed(p, begun, r, f);
  }

  lemma {:induction false} WriteRest(p: Plan, w: World, r: Rank) returns (t: World)
    requires Reachable(p, w) && InPhase(w, r, Writing)
    requires var s := w.ranks[r]; TempIsDirectory(p, w, s.save) && s.begun == s.written <= Expected(p, s.save, r).Keys
    ensures Reachable(p, t) && OnlyTemp(p, w, t, w.ranks[r].save)
    ensures t.ranks == w.ranks[r := Full(p, w.ranks[r].save, r, AtBarrier)]
    ensures TempPath(p, w.ranks[r].save) in t.fs <==>
      TempPath(p, w.ranks[r].save) in w.fs || w.ranks[r].written != Expected(p, w.ranks[r].save, r).Keys
    decreases Expected(p, w.ranks[r].save, r).Keys - w.ranks[r].written
  {
    var s := w.ranks[r];
    if s.written == Expected(p, s.save, r).Keys {
      t := Take(p, w, FinishFiles(r));
    } else {
      var one, _ := WriteOne(p, w, r);
      t := WriteRest(p, one, r);
    }
  }

  ghost predicate WritesFrom(p: Plan, k: nat, lo: nat) {
    exists q: Rank, f :: lo <= q < p.ranks && f in Expected(p, k, q)
  }

  lemma WritesFromStep(p: Plan, k: nat, lo: nat)
    requires lo < p.ranks
    ensures WritesFrom(p, k, lo) <==> Expected(p, k, lo).Keys != {} || WritesFrom(p, k, lo + 1)
  {
    if Expected(p, k, lo).Keys != {} {
      var f :| f in Expected(p, k, lo);
    }
  }

  /** Ranks from lo on write everything they have for save k. */
  lemma {:induction false} WriteAll(p: Plan, w: World, k: nat, lo: nat) returns (t: World)
    requires Reachable(p, w) && TempIsDirectory(p, w, k) && lo <= p.ranks == |w.ranks|
    requires forall r :: lo <= r < p.ranks ==> w.ranks[r] == Entering(k)
    ensures Reachable(p, t) && OnlyTemp(p, w, t, k)
    ensures TempPath(p, k) in t.fs <==> TempPath(p, k) in w.fs || WritesFrom(p, k, lo)
    ensures forall r :: 0 <= r < p.ranks ==> t.ranks[r] == if lo <= r then Full(p, k, r, AtBarrier) else w.ranks[r]
    decreases p.ranks - lo
  {
    if lo == p.ranks {
      t := w;
    } else {
      var one := WriteRest(p, w, lo);
      WritesFromStep(p, k, lo);
      t := WriteAll(p, one, k, lo + 1);
    }
  }

  lemma {:induction false} ArriveAll(p: Plan, w: World, k: nat, lo: nat) returns (t: World)
    requires Reachable(p, w) && lo < p.ranks == |w.ranks| && Members(w, k) == lo
    requires forall r :: 0 <= r < p.ranks ==> w.ranks[r] == Full(p, k, r, if lo <= r then AtBarrier else Waiting)
    ensures Reachable(p, t) && t == w.(ranks := t.ranks, members := t.members, arrived := t.arrived) && |t.ranks| == p.ranks
    ensures forall j: nat :: j != k ==> (j in t.members <==> j in w.members)
    ensures forall r :: 0 <= r < p.ranks ==> t.ranks[r] == Full(p, k, r, if r == p.ranks - 1 then LastArrived else Waiting)
    decreases p.ranks - lo
  {
    t := Take(p, w, Arrive(lo));
    if lo + 1 < p.ranks {
      t := ArriveAll(p, t, k, lo + 1);
    }
  }

  lemma {:induction false} PassAll(p: Plan, w: World, k: nat, lo: nat) returns (t: World)
    requires Reachable(p, w) && lo <= p.ranks == |w.ranks| && k in w.lastMember
    requires forall r :: 0 <= r < p.ranks ==> w.ranks[r] == Full(p, k, r, if lo <= r then Waiting else Passed)
    ensures Reachable(p, t) && t == w.(ranks := t.ranks) && |t.ranks| == p.ranks
    ensures forall r :: 0 <= r < p.ranks ==> t.ranks[r] == Full(p, k, r, Passed)
    decreases p.ranks - lo
  {
    if lo == p.ranks {
      t := w;
    } else {
      var one := Take(p, w, Pass(lo));
      t := PassAll(p, one, k, lo + 1);
    }
  }

  /** Ranks from lo on, rank 0 not among them, go on to the next save. */
  lemma {:induction false} MoveOn(p: Plan, w: World, k: nat, lo: nat) returns (t: World)
    requires Reachable(p, w) && 0 < lo <= p.ranks == |w.ranks|
    requires forall r :: lo <= r < p.ranks ==> w.ranks[r] == Full(p, k, r, Passed)
    ensures Reachable(p, t) && t == w.(ranks := t.ranks) && |t.ranks| == p.ranks
    ensures forall r :: 0 <= r < p.ranks ==> t.ranks[r] == if lo <= r then Entering(k + 1) else w.ranks[r]
    decreases p.ranks - lo
  {
    if lo == p.ranks {
      t := w;
    } else {
      var done := Take(p, w, CommitDir(lo));
      var one := Take(p, done, NextSave(lo));
      t := MoveOn(p, one, k, lo + 1);
    }
  }

  /** The barrier of a save from k on has not been used. */
  ghost predicate Unused(w: World, k: nat) {
    forall j: nat :: k <= j ==> j !in w.members
  }

  lemma Flagged(p: Plan, w: World, k: nat) returns (t: World)
    requires Reachable(p, w) && 0 < p.ranks == |w.ranks| && Members(w, k) == 0
    requires forall r :: 0 <= r < p.ranks ==> w.ranks[r] == Full(p, k, r, AtBarrier)
    ensures Reachable(p, t) && t.fs == w.fs && t.committed == w.committed && |t.ranks| == p.ranks && k in t.lastMember
    ensures forall j: nat :: j != k ==> (j in t.members <==> j in w.members)
    ensures forall r :: 0 <= r < p.ranks ==> t.ranks[r] == Full(p, k, r, Waiting)
  {
    var arrived := ArriveAll(p, w, k, 0);
    assert arrived.ranks[p.ranks - 1] == Full(p, k, p.ranks - 1, LastArrived);
    t := Take(p, arrived, SetFlag(p.ranks - 1));
  }

  /** All ranks meet at the barrier of save k, and all but rank 0 go on. */
  lemma Meet(p: Plan, w: World, k: nat) returns (t: World)
    requires Reachable(p, w) && 0 < p.ranks == |w.ranks| && Unused(w, k)
    requires forall r :: 0 <= r < p.ranks ==> w.ranks[r] == Full(p, k, r, AtBarrier)
    ensures Reachable(p, t) && t.fs == w.fs && t.committed == w.committed && |t.ranks| == p.ranks && Unused(t, k + 1)
    ensures forall r :: 0 <= r < p.ranks ==> t.ranks[r] == if r == 0 then Full(p, k, 0, Passed) else Entering(k + 1)
  {
    var flagged := Flagged(p, w, k);
    var passed := PassAll(p, flagged, k, 0);
    t := MoveOn(p, passed, k, 1);
  }

  lemma FirstRenames(p: Plan, w: World, k: nat) returns (t: World)
    requires Reachable(p, w) && 0 < |w.ranks| && w.ranks[0] == Full(p, k, 0, Passed)
    requires TempPath(p, k) in w.fs && p.finalPath(k) !in w.fs
    ensures Reachable(p, t) && t == w.(ranks := w.ranks[0 := Full(p, k, 0, Finished)], fs := t.fs, committed := w.committed + {k})
    ensures t.fs == (w.fs - {TempPath(p, k)})[p.finalPath(k) := w.fs[TempPath(p, k)]]
  {
    t := Take(p, w, CommitDir(0));
  }

  lemma FirstSkips(p: Plan, w: World, k: nat) returns (t: World)
    requires Reachable(p, w) && 0 < |w.ranks| && w.ranks[0] == Full(p, k, 0, Passed) && TempPath(p, k) !in w.fs
    ensures Reachable(p, t) && t == w.(ranks := w.ranks[0 := Full(p, k, 0, Finished)])
  {
    t := Take(p, w, CommitDir(0));
  }

  lemma FirstEnters(p: Plan, w: World, k: nat) returns (t: World)
    requires Reachable(p, w) && 0 < |w.ranks| && w.ranks[0] == Full(p, k, 0, Finished)
    ensures Reachable(p, t) && t == w.(ranks := w.ranks[0 := Entering(k + 1)])
  {
    t := Take(p, w, NextSave(0));
  }

  /** Rank 0 finishes save k: it renames the directory if there is one. */
  lemma FirstGoesOn(p: Plan, w: World, k: nat) returns (t: World)
    requires Reachable(p, w) && 0 < |w.ranks| && w.ranks[0] == Full(p, k, 0, Passed)
    requires TempPath(p, k) in w.fs ==> p.finalPath(k) !in w.fs
    ensures Reachable(p, t) && t == w.(ranks := w.ranks[0 := Entering(k + 1)], fs := t.fs, committed := t.committed)
    ensures if TempPath(p, k) in w.fs
      then t.fs == (w.fs - {TempPath(p, k)})[p.finalPath(k) := w.fs[TempPath(p, k)]] && t.committed == w.committed + {k}
      else t.fs == w.fs && t.committed == w.committed
  {
    if TempPath(p, k) in w.fs {
      var done := FirstRenames(p, w, k);
      t := FirstEnters(p, done, k);
    } else {
      var done := FirstSkips(p, w, k);
      t := FirstEnters(p, done, k);
    }
  }

  // ----- from save to save

  /** All ranks are about to write save k, and only earlier saves with files left something. */
  ghost predicate Level(p: Plan, w: World, k: nat) {
    && Reachable(p, w) && |w.ranks| == p.ranks && Unused(w, k) && LeftBefore(p, w.fs, k)
    && forall r :: 0 <= r < p.ranks ==> w.ranks[r] == Entering(k)
  }

  ghost predicate LeftBefore(p: Plan, fs: FileSystem, k: nat) {
    forall d :: d in fs ==> exists i: nat :: i < k && WritesFiles(p, i) && p.finalPath(i) == d
  }

  lemma PathIsFree(p: Plan, fs: FileSystem, k: nat)
    requires ValidPlan(p) && LeftBefore(p, fs, k)
    ensures TempPath(p, k) !in fs
    ensures WritesFiles(p, k) && (forall i :: !SharePath(p, i, k)) ==> p.finalPath(k) !in fs
  {
    if WritesFiles(p, k) && p.finalPath(k) in fs {
      var i: nat :| i < k && WritesFiles(p, i) && p.finalPath(i) == p.finalPath(k);
      assert SharePath(p, i, k);
    }
  }

  /** Rank 0 has yet to commit save k, and the others are in the next one. */
  ghost predicate FirstIsBehind(p: Plan, w: World, k: nat) {
    && Reachable(p, w) && 0 < |w.ranks| == p.ranks && Unused(w, k + 1) && LeftBefore(p, w.fs - {TempPath(p, k)}, k)
    && (TempPath(p, k) in w.fs <==> WritesFiles(p, k)) && TempIsDirectory(p, w, k) && w.ranks[0] == Full(p, k, 0, Passed)
    && forall r :: 1 <= r < p.ranks ==> w.ranks[r] == Entering(k + 1)
  }

  lemma GetAhead(p: Plan, w: World, k: nat) returns (t: World)
    requires ValidPlan(p) && Level(p, w, k)
    ensures FirstIsBehind(p, t, k)
  {
    PathIsFree(p, w.fs, k);
    var written := WriteAll(p, w, k, 0);
    t := Meet(p, written, k);
  }

  lemma CommitLeaves(p: Plan, w: World, t: World, k: nat)
    requires LeftBefore(p, w.fs - {TempPath(p, k)}, k)
    requires if TempPath(p, k) in w.fs
      then t.fs == (w.fs - {TempPath(p, k)})[p.finalPath(k) := w.fs[TempPath(p, k)]] && WritesFiles(p, k)
      else t.fs == w.fs
    ensures LeftBefore(p, t.fs, k + 1)
  {
    forall d | d in t.fs ensures exists i: nat :: i < k + 1 && WritesFiles(p, i) && p.finalPath(i) == d {
      if d in w.fs - {TempPath(p, k)} {
        var i: nat :| i < k && WritesFiles(p, i) && p.finalPath(i) == d;
      }
    }
  }

  /** One save after the other. */
  lemma NextLevel(p: Plan, w: World, k: nat) returns (t: World)
    requires ValidPlan(p) && Level(p, w, k) && forall i :: !SharePath(p, i, k)
    ensures Level(p, t, k + 1)
  {
    var ahead := GetAhead(p, w, k);
    PathIsFree(p, ahead.fs - {TempPath(p, k)}, k);
    t := FirstGoesOn(p, ahead, k);
    CommitLeaves(p, ahead, t, k);
  }

  /** The other ranks write save k + 1 to the same path before rank 0 renames save k. */
  lemma WriteBoth(p: Plan, w: World, k: nat) returns (t: World)
    requires ValidPlan(p) && Level(p, w, k) && forall i :: !SharePath(p, i, k)
    requires SharePath(p, k, k + 1)
    ensures Reachable(p, t) && |t.ranks| == p.ranks && Unused(t, k + 1) && LeftBefore(p, t.fs, k + 1)
    ensures t.ranks[0] == Entering(k + 1)
    ensures forall r :: 1 <= r < p.ranks ==> t.ranks[r] == Full(p, k + 1, r, AtBarrier)
  {
    var ahead := GetAhead(p, w, k);
    var both := WriteAll(p, ahead, k + 1, 1);
    PathIsFree(p, ahead.fs - {TempPath(p, k)}, k);
    t := FirstGoesOn(p, both, k);
    CommitLeaves(p, both, t, k);
  }

  lemma FirstWritesNothing(p: Plan, w: World, k: nat) returns (t: World)
    requires Reachable(p, w) && 0 < |w.ranks| && w.ranks[0] == Entering(k) && Expected(p, k, 0) == map[]
    ensures Reachable(p, t) && t == w.(ranks := w.ranks[0 := Full(p, k, 0, AtBarrier)])
  {
    t := Take(p, w, FinishFiles(0));
  }

  lemma LeftLater(p: Plan, fs: FileSystem, k: nat)
    requires LeftBefore(p, fs, k)
    ensures LeftBefore(p, fs, k + 1)
  {
    forall d | d in fs ensures exists i: nat :: i < k + 1 && WritesFiles(p, i) && p.finalPath(i) == d {
      var i: nat :| i < k && WritesFiles(p, i) && p.finalPath(i) == d;
    }
  }

  /** If rank 0 writes nothing in save k + 1, it then finds nothing to rename and goes on. */
  lemma SecondNextLevel(p: Plan, w: World, k: nat) returns (t: World)
    requires ValidPlan(p) && Level(p, w, k) && forall i :: !SharePath(p, i, k)
    requires SharePath(p, k, k + 1) && Expected(p, k + 1, 0) == map[]
    ensures Level(p, t, k + 2)
  {
    var both := WriteBoth(p, w, k);
    var written := FirstWritesNothing(p, both, k + 1);
    var met := Meet(p, written, k + 1);
    PathIsFree(p, both.fs, k + 1);
    t := FirstGoesOn(p, met, k + 1);
    LeftLater(p, both.fs, k + 1);
  }

  lemma StartLevel(p: Plan) returns (t: World)
    ensures Level(p, t, 0)
  {
    t := World(map[], map[], {}, seq(p.ranks, _ => Entering(0)), map[], {});
    assert Start(p, t) && IsRun(p, t, []) && After(p, t, []) == t;
  }

  /** Every save that can be committed is entered by all ranks together in some run, unless
      it is the second of two to one path. */
  lemma {:induction false} LevelIsReached(p: Plan, last: nat, k: nat) returns (t: World)
    requires ValidPlan(p) && CanCommit(p, last) && k <= last && (k > 0 ==> !SharePath(p, k - 1, k))
    ensures Level(p, t, k)
    decreases k
  {
    if k == 0 {
      t := StartLevel(p);
    } else if k > 1 && SharePath(p, k - 2, k - 1) {
      assert k > 2 && SharePath(p, k - 3, k - 2) ==> SharePath(p, k - 3, k - 1);
      var w := LevelIsReached(p, last, k - 2);
      t := SecondNextLevel(p, w, k - 2);
    } else {
      var w := LevelIsReached(p, last, k - 1);
      t := NextLevel(p, w, k - 1);
    }
  }
}
