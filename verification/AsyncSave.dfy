/** What every run of the asynchronous save protocol keeps (checkpoint_saver.py). */
module AsyncSave {
  import opened Wrappers
  import Lock
  import opened AsyncProtocol
  import opened AsyncSteps

  // ----- runs

  ghost predicate IsRun(s: State, steps: seq<Step>)
    decreases |steps|
  {
    steps == [] || (Enabled(s, steps[0]) && IsRun(Next(s, steps[0]), steps[1..]))
  }

  ghost function After(s: State, steps: seq<Step>): State
    requires IsRun(s, steps)
    decreases |steps|
  {
    if steps == [] then s else After(Next(s, steps[0]), steps[1..])
  }

  lemma {:induction false} RunKeepsInv(s: State, steps: seq<Step>)
    requires Inv(s) && IsRun(s, steps)
    ensures Inv(After(s, steps))
    decreases |steps|
  {
    if steps != [] {
      NextKeepsInv(s, steps[0]);
      RunKeepsInv(Next(s, steps[0]), steps[1..]);
    }
  }

  /** Reachable from the start by some run. */
  ghost predicate Reachable(s: State) {
    exists first, steps :: Start(first) && IsRun(first, steps) && After(first, steps) == s
  }

  lemma CommSaveOk(s: State)
    requires Inv(s)
    ensures !s.comm.CommIdle? ==> s.comm.save < |s.saves| && SaveOk(s, s.comm.save)
  {
  }

  lemma QueueHeadIsSave(s: State)
    requires Inv(s)
    ensures s.queue != [] ==> s.queue[0] < |s.saves|
  {
    if s.queue != [] {
      assert s.queue[0] in s.queue;
    }
  }

  lemma ReachableKeepsInv(s: State)
    requires Reachable(s)
    ensures Inv(s)
  {
    var first, steps :| Start(first) && IsRun(first, steps) && After(first, steps) == s;
    RunKeepsInv(first, steps);
  }

  predicate StagingEnded(s: State, k: Save)
    requires k < |s.saves|
  {
    s.saves[k].job.Some? && JobDone(s, s.saves[k].job.value)
  }

  /** A launched save holds the lock for WRITE until its staging ends, keeps holding it
      until its write ends, and holds nothing once it has released. */
  lemma LaunchedSaveHoldsLock(s: State, k: Save)
    requires Reachable(s) && k < |s.saves| && Launched(s.saves[k])
    ensures !StagingEnded(s, k) ==> s.writing == Some(SaveHolder(k)) && s.reading == {}
    ensures !s.saves[k].write.Done? ==> s.writing == Some(SaveHolder(k)) || SaveHolder(k) in s.reading
    ensures s.saves[k].callback.Released? ==> s.writing != Some(SaveHolder(k)) && SaveHolder(k) !in s.reading
  {
    ReachableKeepsInv(s);
    assert SaveOk(s, k);
  }

  lemma CallbackHolds(s: State, k: Save)
    requires LockOk(s) && k < |s.saves| && SaveOk(s, k)
    ensures s.saves[k].callback.Registered? ==> s.writing == Some(SaveHolder(k)) && s.reading == {}
    ensures s.saves[k].callback.Downgraded? ==> SaveHolder(k) in s.reading && s.writing == None
  {
  }

  lemma CallbackEnabled(s: State, k: Save)
    ensures Enabled(s, RunDowngrade(k)) ==> k < |s.saves| && s.saves[k].callback.Registered?
    ensures Enabled(s, RunRelease(k)) ==> k < |s.saves| && s.saves[k].callback.Downgraded?
    ensures Enabled(s, RunStageRelease) ==> s.stageOnly.Some?
  {
  }

  /** No callback ever raises: a downgrade finds its own save's WRITE hold, a release its
      own save's read hold, whichever of staging and writing ended first. */
  lemma CallbacksFindTheirHold(s: State, k: Save)
    requires Reachable(s)
    ensures Enabled(s, RunDowngrade(k)) ==> s.writing == Some(SaveHolder(k)) && s.reading == {}
    ensures Enabled(s, RunRelease(k)) ==> SaveHolder(k) in s.reading && s.writing == None
    ensures Enabled(s, RunStageRelease) ==> s.writing == Some(StageHolder)
  {
    ReachableKeepsInv(s);
    CallbackEnabled(s, k);
    if k < |s.saves| {
      CallbackHolds(s, k);
    }
  }

  /** A save that fails before its callbacks are registered releases its own WRITE hold. */
  lemma AbortFindsItsHold(s: State)
    requires Reachable(s) && CanAbort(s, false)
    ensures s.writing == Some(SaveHolder(s.trainer.save))
  {
    ReachableKeepsInv(s);
    assert SaveOk(s, s.trainer.save);
  }

  lemma {:induction false} ReleasedForGood(s: State, steps: seq<Step>, k: Save, i: nat)
    requires Inv(s) && IsRun(s, steps) && k < |s.saves| && s.saves[k].callback.Released? && i < |steps|
    ensures steps[i] != RunDowngrade(k) && steps[i] != RunRelease(k)
    decreases |steps|
  {
    assert SaveOk(s, k);
    if i > 0 {
      ReleasedStays(s, steps[0], k);
      NextKeepsInv(s, steps[0]);
      ReleasedForGood(Next(s, steps[0]), steps[1..], k, i - 1);
    }
  }

  lemma ReleasedStays(s: State, step: Step, k: Save)
    requires Enabled(s, step) && k < |s.saves| && s.saves[k].callback.Released? && !InProgress(s, k)
    ensures k < |Next(s, step).saves| && Next(s, step).saves[k].callback.Released?
  {
    if IsTrainerStep(step) {
      TrainerChangesItsSave(s, step, k);
    } else {
      OthersMoveSaves(s, step, k);
    }
  }

  /** The trainer changes only the save in progress, and its version only by fetching it. */
  lemma TrainerChangesItsSave(s: State, step: Step, k: Save)
    requires Enabled(s, step) && IsTrainerStep(step) && k < |s.saves|
    ensures k < |TrainerStep(s, step).saves|
    ensures !InProgress(s, k) ==> TrainerStep(s, step).saves[k] == s.saves[k]
    ensures !(step.FetchMetadata? && s.trainer.save == k) ==> TrainerStep(s, step).saves[k].version == s.saves[k].version
  {
  }

  /** The other threads change no version, take back no launch, and change only the write
      that is on the communication thread or next in its queue. */
  lemma OthersMoveSaves(s: State, step: Step, k: Save)
    requires Enabled(s, step) && !IsTrainerStep(step) && k < |s.saves|
    ensures k < |OtherStep(s, step).saves| && OtherStep(s, step).saves[k].version == s.saves[k].version
    ensures s.saves[k].callback.Released? ==> OtherStep(s, step).saves[k].callback.Released?
    ensures Launched(s.saves[k]) ==> Launched(OtherStep(s, step).saves[k])
    ensures (s.comm.CommIdle? || s.comm.save != k) && k !in s.queue ==> OtherStep(s, step).saves[k].write == s.saves[k].write
  {
  }

  /** Each save's lock is released exactly once: after a release, no run releases or
      downgrades for that save again. */
  lemma ReleasedOnce(s: State, k: Save, steps: seq<Step>, i: nat)
    requires Reachable(s) && Enabled(s, RunRelease(k)) && IsRun(Next(s, RunRelease(k)), steps) && i < |steps|
    ensures steps[i] != RunDowngrade(k) && steps[i] != RunRelease(k)
  {
    ReachableKeepsInv(s);
    NextKeepsInv(s, RunRelease(k));
    ReleasedForGood(Next(s, RunRelease(k)), steps, k, i);
  }

  predicate Reads(s: State, k: Save) {
    s.comm == CommSending(k) || s.comm == CommAwaiting(k) || (s.sub.SubWriting? && s.sub.save == k)
  }

  /** No write reads a restaged buffer: from the moment the communication thread takes a
      payload to the subprocess's answer, the buffer holds exactly what that save staged. */
  lemma WriteReadsItsOwnBuffer(s: State, k: Save)
    requires Reachable(s) && Reads(s, k)
    ensures k < |s.saves| && s.saves[k].job.Some? && s.buffer == Filled(s.saves[k].job.value)
    ensures s.saves[k].job.value < |s.jobs| && s.jobs[s.saves[k].job.value] == ForSave(k)
    ensures s.started == |s.jobs| == |s.outcomes|
  {
    ReachableKeepsInv(s);
    assert SaveOk(s, k);
  }

  /** Every write the subprocess performs uses the metadata version its own save fetched,
      even when the payload omits it. */
  lemma WriteUsesItsOwnMetadata(s: State, k: Save)
    requires Reachable(s)
    ensures k in s.wrote ==> k < |s.saves| && s.wrote[k] == s.saves[k].version
    ensures s.sub.SubWriting? && s.sub.save == k ==> k < |s.saves| && s.sub.using == s.saves[k].version
  {
    ReachableKeepsInv(s);
    assert k < |s.saves| ==> SaveOk(s, k);
  }

  /** Only a fetch makes the saver believe it has sent something. */
  lemma {:induction false} NothingSentUntilFetch(s: State, steps: seq<Step>)
    requires IsRun(s, steps) && s.sent.None? && forall i :: 0 <= i < |steps| ==> !steps[i].FetchMetadata?
    ensures After(s, steps).sent.None? && After(s, steps).hasManager == s.hasManager
    decreases |steps|
  {
    if steps != [] {
      assert !steps[0].FetchMetadata?;
      NothingSentUntilFetch(Next(s, steps[0]), steps[1..]);
    }
  }

  /** A launch that fails forces a resend: whatever happens in between, the next save that
      fetches brings its metadata along in full. */
  lemma AbortForcesResend(s: State, leavesTask: bool, steps: seq<Step>)
    requires s.hasManager && Enabled(s, AbortSave(leavesTask)) && IsRun(Next(s, AbortSave(leavesTask)), steps)
    requires forall i :: 0 <= i < |steps| ==> !steps[i].FetchMetadata?
    ensures var f := After(Next(s, AbortSave(leavesTask)), steps);
      Enabled(f, FetchMetadata) ==>
        var k, t := f.trainer.save, Next(f, FetchMetadata);
        k < |t.saves| && f.current.Some? && t.saves[k].version == t.saves[k].payload == f.current
  {
    NothingSentUntilFetch(Next(s, AbortSave(leavesTask)), steps);
  }

  /** What was sent is not sent again: until another fetch or a failed launch, a save that
      fetches the version last fetched leaves it out of its payload. */
  lemma {:induction false} SentVersionIsLeftOut(s: State, steps: seq<Step>)
    requires IsRun(s, steps) && s.hasManager && Enabled(After(s, steps), FetchMetadata)
    requires forall i :: 0 <= i < |steps| ==> !steps[i].FetchMetadata? && !steps[i].AbortSave?
    ensures var f := After(s, steps);
      f.current == s.sent ==> f.trainer.save < |f.saves| && Next(f, FetchMetadata).saves[f.trainer.save].payload == None
    decreases |steps|
  {
    if steps != [] {
      assert !steps[0].FetchMetadata? && !steps[0].AbortSave?;
      SentStays(s, steps[0]);
      SentVersionIsLeftOut(Next(s, steps[0]), steps[1..]);
    }
  }

  lemma SentStays(s: State, step: Step)
    requires Enabled(s, step) && !step.FetchMetadata? && !step.AbortSave?
    ensures Next(s, step).sent == s.sent && Next(s, step).hasManager == s.hasManager
  {
  }

  lemma NoMetadataStays(s: State, step: Step)
    requires Enabled(s, step) && s.hasManager && s.current.None? && !step.Compute?
    ensures !step.FetchMetadata? && Next(s, step).hasManager && Next(s, step).current.None?
  {
  }

  lemma {:induction false} NoMetadataUntilComputed(s: State, steps: seq<Step>, i: nat)
    requires IsRun(s, steps) && i < |steps| && s.hasManager && s.current.None?
    requires forall j :: 0 <= j <= i ==> !steps[j].Compute?
    ensures !steps[i].FetchMetadata?
    decreases |steps|
  {
    NoMetadataStays(s, steps[0]);
    if i > 0 {
      NoMetadataUntilComputed(Next(s, steps[0]), steps[1..], i - 1);
    }
  }

  /** Invalidated metadata reaches no later save: until it is computed again none fetches. */
  lemma InvalidatedIsNotFetched(s: State, steps: seq<Step>, i: nat)
    requires Enabled(s, Invalidate) && IsRun(Next(s, Invalidate), steps) && i < |steps|
    requires forall j :: 0 <= j <= i ==> !steps[j].Compute?
    ensures !steps[i].FetchMetadata?
  {
    NoMetadataUntilComputed(Next(s, Invalidate), steps, i);
  }

  predicate Older(v: Option<Version>, s: State) { v.Some? ==> v.value < s.versions }

  /** Every version around was computed before. */
  ghost predicate VersionsOk(s: State) {
    && Older(s.current, s) && Older(s.sent, s) && Older(s.cache, s)
    && forall k: nat :: k < |s.saves| ==> Older(s.saves[k].version, s) && Older(s.saves[k].payload, s)
  }

  /** The manager's version is the only one a save can fetch or send. */
  lemma TrainerVersions(s: State, step: Step, k: Save)
    requires Enabled(s, step) && IsTrainerStep(step) && k < |TrainerStep(s, step).saves|
    ensures var v := TrainerStep(s, step).saves[k].version; v == None || v == s.current || (k < |s.saves| && v == s.saves[k].version)
    ensures var v := TrainerStep(s, step).saves[k].payload; v == None || v == s.current || (k < |s.saves| && v == s.saves[k].payload)
  {
  }

  lemma TrainerFields(s: State, step: Step)
    requires Enabled(s, step) && IsTrainerStep(step)
    ensures var t := TrainerStep(s, step);
      && t.versions >= s.versions && t.cache == s.cache
      && (t.current == None || t.current == s.current || (t.current == Some(s.versions) && t.versions == s.versions + 1))
      && (t.sent == None || t.sent == s.sent || t.sent == s.current)
  {
  }

  lemma OthersVersions(s: State, step: Step, k: Save)
    requires Enabled(s, step) && !IsTrainerStep(step) && k < |s.saves|
    ensures k < |OtherStep(s, step).saves|
    ensures OtherStep(s, step).saves[k].version == s.saves[k].version && OtherStep(s, step).saves[k].payload == s.saves[k].payload
  {
  }

  lemma OthersFields(s: State, step: Step)
    requires Enabled(s, step) && !IsTrainerStep(step)
    ensures var t := OtherStep(s, step);
      && t.versions == s.versions && t.current == s.current && t.sent == s.sent && |t.saves| == |s.saves|
      && (t.cache == s.cache || (s.comm.CommSending? && s.comm.save < |s.saves| && t.cache == s.saves[s.comm.save].payload))
  {
  }

  lemma StepKeepsVersions(s: State, step: Step)
    requires VersionsOk(s) && Enabled(s, step)
    ensures VersionsOk(Next(s, step))
  {
    var t := Next(s, step);
    if IsTrainerStep(step) {
      TrainerFields(s, step);
      forall k: nat | k < |t.saves| ensures Older(t.saves[k].version, t) && Older(t.saves[k].payload, t) {
        TrainerVersions(s, step, k);
      }
    } else {
      OthersFields(s, step);
      forall k: nat | k < |t.saves| ensures Older(t.saves[k].version, t) && Older(t.saves[k].payload, t) {
        OthersVersions(s, step, k);
      }
    }
  }

  lemma {:induction false} RunKeepsVersions(s: State, steps: seq<Step>)
    requires VersionsOk(s) && IsRun(s, steps)
    ensures VersionsOk(After(s, steps))
    decreases |steps|
  {
    if steps != [] {
      StepKeepsVersions(s, steps[0]);
      RunKeepsVersions(Next(s, steps[0]), steps[1..]);
    }
  }

  /** Recomputed metadata is never taken for what was sent before: its version differs from
      the last one sent, from the one the subprocess has, and from every save's. */
  lemma ComputedIsNew(s: State)
    requires Reachable(s) && Enabled(s, Compute)
    ensures var v := Next(s, Compute).current;
      v.Some? && v != s.sent && v != s.cache && forall k: nat :: k < |s.saves| ==> v != s.saves[k].version
  {
    var first, steps :| Start(first) && IsRun(first, steps) && After(first, steps) == s;
    RunKeepsVersions(first, steps);
    assert forall k: nat :: k < |s.saves| ==> Older(s.saves[k].version, s);
  }

  lemma OnlyFetchSetsVersion(s: State, step: Step, k: Save)
    requires Enabled(s, step) && k < |s.saves|
    ensures k < |Next(s, step).saves|
    ensures !(step.FetchMetadata? && s.trainer.save == k) ==> Next(s, step).saves[k].version == s.saves[k].version
  {
    if IsTrainerStep(step) {
      TrainerChangesItsSave(s, step, k);
    } else {
      OthersMoveSaves(s, step, k);
    }
  }

  /** The version of a save is the manager's at the moment it fetched, and stays so. */
  lemma VersionIsFetched(s: State, step: Step, k: Save)
    requires Inv(s) && Enabled(s, step) && k < |s.saves|
    ensures k < |Next(s, step).saves|
    ensures Next(s, step).saves[k].version ==
      if step.FetchMetadata? && s.trainer.save == k then (if s.hasManager then s.current else None) else s.saves[k].version
    ensures step.FetchMetadata? && s.trainer.save == k ==> k !in s.wrote
  {
    OnlyFetchSetsVersion(s, step, k);
    assert SaveOk(s, k);
  }

  // ----- what the futures report is what happened

  /** Something that happens to a save or a staging job: its submission is accepted, its
      write succeeds or fails, or the job ends. */
  datatype Event = Accepting(save: Save) | Succeeding(save: Save) | Failing(save: Save) | Staging(job: Job, ok: bool)

  predicate OnComm(s: State, k: Save) {
    s.comm == CommTaken(k) || s.comm == CommSending(k) || s.comm == CommAwaiting(k)
  }

  /** The step is that event. A write succeeds only by the subprocess's answer; it fails by
      that answer, by the subprocess's death, or before it is sent. */
  predicate IsNow(s: State, step: Step, e: Event) {
    match e
    case Accepting(k) => step == ResolveSubmission(true) && s.trainer == Submitted(k)
    case Succeeding(k) => step == FinishWrite(true) && s.comm == CommAwaiting(k)
    case Failing(k) =>
      || ((step.FailTask? || step.FailSend? || step == FinishWrite(false)) && OnComm(s, k))
      || (step.Crash? && s.comm == CommAwaiting(k))
    case Staging(j, ok) => step == FinishJob(ok) && |s.outcomes| == j
  }

  /** What the future reports. */
  predicate Reported(s: State, e: Event) {
    match e
    case Accepting(k) => k < |s.saves| && s.saves[k].submission.Accepted?
    case Succeeding(k) => k < |s.saves| && s.saves[k].write == Done(true)
    case Failing(k) => k < |s.saves| && s.saves[k].write == Done(false)
    case Staging(j, ok) => j < |s.outcomes| && s.outcomes[j] == ok
  }

  ghost predicate Happened(s: State, steps: seq<Step>, e: Event)
    requires IsRun(s, steps)
    decreases |steps|
  {
    steps != [] && (IsNow(s, steps[0], e) || Happened(Next(s, steps[0]), steps[1..], e))
  }

  /** The trainer's steps end no write, and accept a submission only by its answer. */
  lemma TrainerKeepsFutures(s: State, step: Step, k: Save)
    requires k < |s.saves| ==> PhaseOk(s, k)
    requires Enabled(s, step) && IsTrainerStep(step)
    ensures k < |s.saves| ==> k < |TrainerStep(s, step).saves|
    ensures k < |TrainerStep(s, step).saves| ==>
      var r := TrainerStep(s, step).saves[k];
      && (r.write.Done? <==> k < |s.saves| && s.saves[k].write.Done?)
      && (r.write.Done? ==> r.write == s.saves[k].write)
      && (r.submission.Accepted? <==> (k < |s.saves| && s.saves[k].submission.Accepted?) || IsNow(s, step, Accepting(k)))
  {
  }

  lemma TrainerStepReports(s: State, step: Step, e: Event)
    requires Inv(s) && Enabled(s, step) && IsTrainerStep(step)
    ensures Reported(Next(s, step), e) <==> Reported(s, e) || IsNow(s, step, e)
  {
    if e.Staging? {
      TrainerEndsNoJob(s, step);
    } else {
      SavePhaseOk(s, e.save);
      TrainerReportsSave(s, step, e);
    }
  }

  lemma SavePhaseOk(s: State, k: Save)
    requires Inv(s)
    ensures k < |s.saves| ==> PhaseOk(s, k) && TaskOk(s, k)
  {
    if k < |s.saves| { assert SaveOk(s, k); }
  }

  lemma TrainerReportsSave(s: State, step: Step, e: Event)
    requires Enabled(s, step) && IsTrainerStep(step) && !e.Staging? && (e.save < |s.saves| ==> PhaseOk(s, e.save))
    ensures Reported(TrainerStep(s, step), e) <==> Reported(s, e) || IsNow(s, step, e)
  {
    TrainerKeepsFutures(s, step, e.save);
  }

  lemma TrainerEndsNoJob(s: State, step: Step)
    requires Enabled(s, step) && IsTrainerStep(step)
    ensures TrainerStep(s, step).outcomes == s.outcomes
  {
  }

  lemma OthersAcceptNothing(s: State, step: Step, k: Save)
    requires Enabled(s, step) && !IsTrainerStep(step)
    ensures |OtherStep(s, step).saves| == |s.saves|
    ensures k < |s.saves| ==> OtherStep(s, step).saves[k].submission == s.saves[k].submission
  {
  }

  predicate OfComm(step: Step) {
    step.TakeTask? || step.FailTask? || step.TakePayload? || step.Send? || step.FailSend? || step.FinishWrite? || step.Crash?
  }

  lemma QuietStepsEndNoWrite(s: State, step: Step, k: Save)
    requires Enabled(s, step) && !IsTrainerStep(step) && !OfComm(step) && k < |s.saves|
    ensures |OtherStep(s, step).saves| == |s.saves| && OtherStep(s, step).saves[k].write == s.saves[k].write
  {
  }

  predicate MovesOn(step: Step) {
    step.TakeTask? || step.TakePayload? || step.Send?
  }

  /** A task that moves on was not done and is not done now. */
  lemma MovesEndNoWrite(s: State, step: Step, k: Save, ok: bool)
    requires Enabled(s, step) && MovesOn(step) && k < |s.saves| && TaskOk(s, k)
    requires step.TakeTask? ==> s.queue[0] in s.queue
    ensures |OtherStep(s, step).saves| == |s.saves|
    ensures OtherStep(s, step).saves[k].write == Done(ok) <==> s.saves[k].write == Done(ok)
  {
  }

  lemma EndingsEndWrites(s: State, step: Step, k: Save, ok: bool)
    requires Enabled(s, step) && OfComm(step) && !MovesOn(step) && !step.Crash? && k < |s.saves| && TaskOk(s, k)
    ensures |OtherStep(s, step).saves| == |s.saves|
    ensures OtherStep(s, step).saves[k].write == Done(ok) <==>
      s.saves[k].write == Done(ok) || IsNow(s, step, if ok then Succeeding(k) else Failing(k))
  {
  }

  lemma CrashEndsWrite(s: State, k: Save, ok: bool)
    requires Enabled(s, Crash) && k < |s.saves| && TaskOk(s, k)
    ensures |OtherStep(s, Crash).saves| == |s.saves|
    ensures OtherStep(s, Crash).saves[k].write == Done(ok) <==>
      s.saves[k].write == Done(ok) || IsNow(s, Crash, if ok then Succeeding(k) else Failing(k))
  {
  }

  /** The other threads end exactly the write on the communication thread. */
  lemma OthersEndWrites(s: State, step: Step, k: Save, ok: bool)
    requires Enabled(s, step) && !IsTrainerStep(step) && k < |s.saves| && TaskOk(s, k)
    ensures |OtherStep(s, step).saves| == |s.saves|
    ensures OtherStep(s, step).saves[k].write == Done(ok) <==>
      s.saves[k].write == Done(ok) || IsNow(s, step, if ok then Succeeding(k) else Failing(k))
  {
    if OfComm(step) {
      assert step.TakeTask? ==> s.queue[0] in s.queue;
      if MovesOn(step) {
        MovesEndNoWrite(s, step, k, ok);
      } else if step.Crash? {
        CrashEndsWrite(s, k, ok);
      } else {
        EndingsEndWrites(s, step, k, ok);
      }
    } else {
      QuietStepsEndNoWrite(s, step, k);
    }
  }

  lemma OthersEndJobs(s: State, step: Step, j: Job, ok: bool)
    requires Enabled(s, step) && !IsTrainerStep(step)
    ensures Reported(OtherStep(s, step), Staging(j, ok)) <==> Reported(s, Staging(j, ok)) || IsNow(s, step, Staging(j, ok))
  {
  }

  lemma OtherStepReports(s: State, step: Step, e: Event)
    requires Inv(s) && Enabled(s, step) && !IsTrainerStep(step)
    ensures Reported(Next(s, step), e) <==> Reported(s, e) || IsNow(s, step, e)
  {
    if e.Staging? {
      OthersEndJobs(s, step, e.job, e.ok);
    } else {
      SavePhaseOk(s, e.save);
      OthersReportSave(s, step, e);
    }
  }

  lemma OthersReportSave(s: State, step: Step, e: Event)
    requires Enabled(s, step) && !IsTrainerStep(step) && !e.Staging? && (e.save < |s.saves| ==> TaskOk(s, e.save))
    requires FuturesOk(s)
    ensures Reported(OtherStep(s, step), e) <==> Reported(s, e) || IsNow(s, step, e)
  {
    OthersAcceptNothing(s, step, e.save);
    if e.save < |s.saves| {
      OthersEndWrites(s, step, e.save, e.Succeeding?);
    } else {
      NoEventOfNoSave(s, step, e);
    }
  }

  lemma NoEventOfNoSave(s: State, step: Step, e: Event)
    requires FuturesOk(s) && !e.Staging? && e.save >= |s.saves|
    ensures !IsNow(s, step, e)
  {
  }

  lemma {:induction false} RunReports(s: State, steps: seq<Step>, e: Event)
    requires Inv(s) && IsRun(s, steps)
    ensures Reported(After(s, steps), e) <==> Reported(s, e) || Happened(s, steps, e)
    decreases |steps|
  {
    if steps != [] {
      if IsTrainerStep(steps[0]) {
        TrainerStepReports(s, steps[0], e);
      } else {
        OtherStepReports(s, steps[0], e);
      }
      NextKeepsInv(s, steps[0]);
      RunReports(Next(s, steps[0]), steps[1..], e);
    }
  }

  /** The futures tell the truth in every run: a submission is reported accepted, a write
      successful or failed, a staging job ended well or badly, exactly if that happened. */
  lemma FuturesReportWhatHappened(first: State, steps: seq<Step>, e: Event)
    requires Start(first) && IsRun(first, steps)
    ensures Reported(After(first, steps), e) <==> Happened(first, steps, e)
  {
    RunReports(first, steps, e);
  }

  predicate StartsWork(step: Step) {
    step.SurfaceWrite? || step.FetchMetadata? || step.SubmitStaging? || step.SubmitWrite? || step.RegisterCallback? || step.Send?
  }

  ghost predicate Stopped(s: State) {
    exists j: nat :: j < |s.saves| && LaunchedAndFailed(s.saves[j])
  }

  predicate LaunchedAndFailed(r: SaveRec) {
    Launched(r) && r.write == Done(false)
  }

  lemma StoppedStays(s: State, step: Step)
    requires Inv(s) && Enabled(s, step) && Stopped(s)
    ensures !StartsWork(step) && Stopped(Next(s, step))
  {
    var j: nat :| j < |s.saves| && LaunchedAndFailed(s.saves[j]);
    FailedIsIdle(s, step, j);
    FailedStays(s, step, j);
  }

  lemma FailedIsIdle(s: State, step: Step, j: Save)
    requires Inv(s) && Enabled(s, step) && j < |s.saves| && LaunchedAndFailed(s.saves[j])
    ensures !StartsWork(step) && !InProgress(s, j) && (s.comm.CommIdle? || s.comm.save != j) && j !in s.queue
  {
    assert SaveOk(s, j);
    CommSaveOk(s);
  }

  lemma FailedStays(s: State, step: Step, j: Save)
    requires Enabled(s, step) && j < |s.saves| && LaunchedAndFailed(s.saves[j])
    requires !InProgress(s, j) && (s.comm.CommIdle? || s.comm.save != j) && j !in s.queue
    ensures j < |Next(s, step).saves| && LaunchedAndFailed(Next(s, step).saves[j])
  {
    if IsTrainerStep(step) {
      TrainerChangesItsSave(s, step, j);
    } else {
      OthersMoveSaves(s, step, j);
    }
  }

  /** After a launched write has failed, every later save fails before it stages or sends
      anything. */
  lemma {:induction false} FailedWriteStopsSaves(s: State, steps: seq<Step>, i: nat)
    requires Inv(s) && Stopped(s) && IsRun(s, steps) && i < |steps|
    ensures !StartsWork(steps[i])
    decreases |steps|
  {
    StoppedStays(s, steps[0]);
    if i > 0 {
      NextKeepsInv(s, steps[0]);
      FailedWriteStopsSaves(Next(s, steps[0]), steps[1..], i - 1);
    }
  }

  /** The save's write has failed, and the save was launched or is about to be. */
  predicate Doomed(s: State, k: Save) {
    k < |s.saves| && s.saves[k].write == Done(false) && (Launched(s.saves[k]) || s.trainer == Submitted(k))
  }

  lemma DoomedTrainer(s: State, step: Step, k: Save)
    requires Inv(s) && Enabled(s, step) && Doomed(s, k) && !Launched(s.saves[k])
    ensures StartsWork(step) ==> step.RegisterCallback?
    ensures Doomed(Next(s, step), k)
  {
    assert SaveOk(s, k);
    CommSaveOk(s);
    if IsTrainerStep(step) {
      DoomedIsRegistered(s, step, k);
    } else {
      OthersReportSave(s, step, Failing(k));
      OthersLeaveTrainer(s, step);
    }
  }

  lemma DoomedIsRegistered(s: State, step: Step, k: Save)
    requires Enabled(s, step) && IsTrainerStep(step) && k < |s.saves| && s.trainer == Submitted(k) && s.saves[k].write == Done(false)
    ensures step.ResolveSubmission? || step.RegisterCallback?
    ensures Doomed(TrainerStep(s, step), k)
  {
  }

  lemma OthersLeaveTrainer(s: State, step: Step)
    requires Enabled(s, step) && !IsTrainerStep(step)
    ensures OtherStep(s, step).trainer == s.trainer
  {
  }

  lemma DoomedStays(s: State, step: Step, k: Save)
    requires Inv(s) && Enabled(s, step) && Doomed(s, k)
    ensures StartsWork(step) ==> step.RegisterCallback? && !Launched(s.saves[k])
    ensures Doomed(Next(s, step), k) && (Launched(s.saves[k]) ==> Launched(Next(s, step).saves[k]))
  {
    if Launched(s.saves[k]) {
      FailedIsIdle(s, step, k);
      FailedStays(s, step, k);
    } else {
      DoomedTrainer(s, step, k);
    }
  }

  lemma {:induction false} DoomedStopsSaves(s: State, k: Save, steps: seq<Step>, i: nat)
    requires Inv(s) && Doomed(s, k) && IsRun(s, steps) && i < |steps|
    ensures StartsWork(steps[i]) ==> steps[i].RegisterCallback? && !Launched(s.saves[k])
    decreases |steps|
  {
    DoomedStays(s, steps[0], k);
    if i > 0 {
      NextKeepsInv(s, steps[0]);
      DoomedStopsSaves(Next(s, steps[0]), k, steps[1..], i - 1);
    }
  }

  /** However a write fails, by the subprocess's answer, its death, or before it is sent:
      from then on no save surfaces, fetches, stages, submits or sends anything. All that is
      left to do is to launch the failed save itself, if it was not yet. */
  lemma FailureStopsSaves(s: State, step: Step, k: Save, steps: seq<Step>, i: nat)
    requires Reachable(s) && Enabled(s, step) && IsNow(s, step, Failing(k)) && k < |s.saves|
    requires Launched(s.saves[k]) || s.trainer == Submitted(k)
    requires IsRun(Next(s, step), steps) && i < |steps|
    ensures StartsWork(steps[i]) ==> steps[i].RegisterCallback? && !Launched(s.saves[k])
  {
    ReachableKeepsInv(s);
    OtherStepReports(s, step, Failing(k));
    OthersLeaveTrainer(s, step);
    OthersMoveSaves(s, step, k);
    LaunchedStaysSame(s, step, k);
    NextKeepsInv(s, step);
    DoomedStopsSaves(Next(s, step), k, steps, i);
  }

  lemma LaunchedStaysSame(s: State, step: Step, k: Save)
    requires Enabled(s, step) && OfComm(step) && k < |s.saves|
    ensures k < |OtherStep(s, step).saves| && OtherStep(s, step).saves[k].callback == s.saves[k].callback
  {
  }

  lemma DeadStaysDead(s: State, step: Step)
    requires Enabled(s, step) && s.sub.SubDead?
    ensures !step.Send? && !step.FinishWrite? && Next(s, step).sub.SubDead?
  {
  }

  lemma {:induction false} DeadWritesNothing(s: State, steps: seq<Step>, i: nat)
    requires IsRun(s, steps) && i < |steps| && s.sub.SubDead?
    ensures !steps[i].Send? && !steps[i].FinishWrite?
    decreases |steps|
  {
    DeadStaysDead(s, steps[0]);
    if i > 0 {
      DeadWritesNothing(Next(s, steps[0]), steps[1..], i - 1);
    }
  }

  /** The subprocess does not survive a failure: after it died, or answered with an error,
      nothing is sent to it and no write succeeds in any run. */
  lemma NothingIsWrittenAfterFailure(s: State, step: Step, steps: seq<Step>, i: nat)
    requires Enabled(s, step) && (step.Crash? || step == FinishWrite(false)) && IsRun(Next(s, step), steps) && i < |steps|
    ensures !steps[i].Send? && !steps[i].FinishWrite?
  {
    DeadWritesNothing(Next(s, step), steps, i);
  }

  /** A save whose submission failed never has its payload read. */
  lemma RefusedTaskReadsNothing(s: State, k: Save)
    requires Reachable(s) && k < |s.saves| && !s.saves[k].submission.Accepted?
    ensures !Reads(s, k)
  {
    ReachableKeepsInv(s);
    assert SaveOk(s, k);
  }

  // ----- the limit of the WRITE guarantee

  predicate WasAborted(s: State, k: Save) {
    k < |s.saves| && !InProgress(s, k) && !Launched(s.saves[k])
  }

  /** While a save's staging job is unfinished, the save holds WRITE exactly unless its
      launch failed. */
  lemma WriteHeldWhileStagingIffNotAborted(s: State, k: Save)
    requires Reachable(s) && k < |s.saves| && s.saves[k].job.Some? && !StagingEnded(s, k)
    ensures s.writing == Some(SaveHolder(k)) <==> !WasAborted(s, k)
  {
    ReachableKeepsInv(s);
    assert SaveOk(s, k);
  }

  lemma {:induction false} RunAppend(s: State, steps: seq<Step>, step: Step)
    requires IsRun(s, steps) && Enabled(After(s, steps), step)
    ensures IsRun(s, steps + [step]) && After(s, steps + [step]) == Next(After(s, steps), step)
    decreases |steps|
  {
    var all := steps + [step];
    if steps == [] {
      assert all[1..] == [];
    } else {
      assert all[1..] == steps[1..] + [step];
      RunAppend(Next(s, steps[0]), steps[1..], step);
    }
  }

  lemma ReachableNext(s: State, step: Step)
    requires Reachable(s) && Enabled(s, step)
    ensures Reachable(Next(s, step))
  {
    var first, steps :| Start(first) && IsRun(first, steps) && After(first, steps) == s;
    RunAppend(first, steps, step);
  }

  lemma SaveReachesStaging(first: State) returns (s: State)
    requires Start(first) && !first.hasManager
    ensures Reachable(s) && s.trainer.Staged? && s.trainer.save < |s.saves| && s.reading == {}
    ensures s.started == |s.outcomes| < |s.jobs|
  {
    assert IsRun(first, []) && After(first, []) == first;
    var s1 := Next(first, BeginSave);
    ReachableNext(first, BeginSave);
    var s2 := Next(s1, SurfaceWrite);
    ReachableNext(s1, SurfaceWrite);
    var s3 := Next(s2, FetchMetadata);
    ReachableNext(s2, FetchMetadata);
    s := Next(s3, SubmitStaging);
    ReachableNext(s3, SubmitStaging);
  }

  /** The exception is real: a launch that fails after staging was submitted leaves the
      staging thread filling the buffer with the lock free. */
  lemma AbortLeavesStagingUnlocked(first: State) returns (s: State)
    requires Start(first) && !first.hasManager
    ensures Reachable(s) && s.started > |s.outcomes| && Lock.Available(Counts(s), Lock.WRITE)
  {
    var staged := SaveReachesStaging(first);
    var running := Next(staged, StartJob);
    ReachableNext(staged, StartJob);
    ReachableNext(running, AbortSave(false));
    s := Next(running, AbortSave(false));
  }

  // ----- no save waits for ever

  predicate TrainerIndependent(step: Step) {
    step.StartJob? || step.FinishJob? || step.RunDowngrade? || step.RunRelease? || step.RunStageRelease? || step.TakeTask?
    || step.FailTask? || step.TakePayload? || step.Send? || step.FailSend? || step.FinishWrite?
  }

  /** Nothing is left for the other threads to do. */
  ghost predicate Quiescent(s: State) {
    forall step :: TrainerIndependent(step) ==> !Enabled(s, step)
  }

  lemma QuiescentTaskIsDone(s: State, k: Save)
    requires Inv(s) && Quiescent(s) && !s.trainer.Submitted? && s.comm.CommIdle? && k < |s.saves| && Launched(s.saves[k])
    ensures s.saves[k].write.Done?
  {
    assert SaveOk(s, k);
    assert !Enabled(s, TakeTask);
    QueueHeadIsSave(s);
  }

  lemma QuiescentJobsAreDone(s: State)
    requires Inv(s) && Quiescent(s)
    ensures |s.outcomes| == |s.jobs|
  {
    assert !Enabled(s, StartJob) && !Enabled(s, FinishJob(true));
  }

  lemma QuiescentHasNoTask(s: State)
    requires Inv(s) && Quiescent(s) && !s.trainer.Submitted?
    ensures !s.comm.CommTaken?
  {
    QuiescentJobsAreDone(s);
    assert !Enabled(s, FailTask) && !Enabled(s, TakePayload);
    CommSaveOk(s);
  }

  lemma QuiescentCommIsIdle(s: State)
    requires Inv(s) && Quiescent(s) && !s.trainer.Submitted?
    ensures s.comm.CommIdle?
  {
    QuiescentHasNoTask(s);
    assert !Enabled(s, Send) && !Enabled(s, FailSend) && !Enabled(s, FinishWrite(true));
  }

  lemma QuiescentSaveHoldsNothing(s: State, k: Save)
    requires Inv(s) && Quiescent(s) && s.trainer.Idle? && k < |s.saves|
    ensures s.writing != Some(SaveHolder(k)) && SaveHolder(k) !in s.reading
  {
    QuiescentJobsAreDone(s);
    QuiescentCommIsIdle(s);
    assert SaveOk(s, k) && !Enabled(s, RunDowngrade(k)) && !Enabled(s, RunRelease(k));
    if Launched(s.saves[k]) { QuiescentTaskIsDone(s, k); }
  }

  /** The lock is never leaked: once the other threads have run dry, the only holders left
      are guarded updates, so the next save is not blocked by an earlier one, whatever
      failed before. */
  lemma QuiescentLockIsFree(s: State)
    requires Reachable(s) && Quiescent(s) && s.trainer.Idle?
    ensures s.writing == None && forall h :: h in s.reading ==> !h.SaveHolder?
  {
    ReachableKeepsInv(s);
    QuiescentJobsAreDone(s);
    forall k: nat | k < |s.saves| ensures s.writing != Some(SaveHolder(k)) && SaveHolder(k) !in s.reading {
      QuiescentSaveHoldsNothing(s, k);
    }
    assert !Enabled(s, RunStageRelease);
  }

  /** A prewarm is a submitted job; a stage-only call never reads. */
  predicate PrewarmIsJob(s: State) {
    StageHolder !in s.reading && (s.prewarm.Some? ==> s.prewarm.value < |s.jobs|)
  }

  lemma TrainerKeepsPrewarm(s: State, step: Step)
    requires PrewarmIsJob(s) && Enabled(s, step) && IsTrainerStep(step)
    ensures PrewarmIsJob(TrainerStep(s, step))
  {
  }

  lemma OthersKeepPrewarm(s: State, step: Step)
    requires PrewarmIsJob(s) && Enabled(s, step) && !IsTrainerStep(step)
    ensures PrewarmIsJob(OtherStep(s, step))
  {
  }

  lemma {:induction false} RunKeepsPrewarm(s: State, steps: seq<Step>)
    requires PrewarmIsJob(s) && IsRun(s, steps)
    ensures PrewarmIsJob(After(s, steps))
    decreases |steps|
  {
    if steps != [] {
      if IsTrainerStep(steps[0]) { TrainerKeepsPrewarm(s, steps[0]); } else { OthersKeepPrewarm(s, steps[0]); }
      RunKeepsPrewarm(Next(s, steps[0]), steps[1..]);
    }
  }

  lemma ReachableKeepsPrewarm(s: State)
    requires Reachable(s)
    ensures PrewarmIsJob(s)
  {
    var first, steps :| Start(first) && IsRun(first, steps) && After(first, steps) == s;
    RunKeepsPrewarm(first, steps);
  }

  /** The next save can begin once the other threads have run dry and the application holds
      no read lock, unless the last prewarm failed. */
  lemma NextSaveCanBegin(s: State)
    requires Reachable(s) && Quiescent(s) && s.trainer.Idle? && forall h :: h in s.reading ==> !h.AppHolder?
    ensures s.prewarm.Some? ==> JobDone(s, s.prewarm.value)
    ensures Enabled(s, BeginSave) <==> (s.prewarm.Some? ==> s.outcomes[s.prewarm.value])
  {
    QuiescentLockIsFree(s);
    ReachableKeepsInv(s);
    QuiescentJobsAreDone(s);
    ReachableKeepsPrewarm(s);
    assert s.reading == {};
  }

  /** The save in progress has to stop: the previous write failed, or there is no metadata
      to fetch. */
  predicate MustAbort(s: State) {
    || (s.trainer.Acquired? && WriteFailed(s, s.writeFuture))
    || (s.trainer.Surfaced? && s.hasManager && s.current.None?)
  }

  predicate GoesOn(step: Step) {
    step.SurfaceWrite? || step.FetchMetadata? || step.SubmitStaging? || step.SubmitWrite? || step.ResolveSubmission?
    || step.RegisterCallback? || step.SubmitStage?
  }

  /** Where the call in progress goes on. */
  function NextCall(s: State): Step
    requires !s.trainer.Idle?
  {
    match s.trainer
    case Acquired(_) => SurfaceWrite
    case Surfaced(_) => FetchMetadata
    case Fetched(_) => SubmitStaging
    case Staged(_) => SubmitWrite
    case Submitted(k) => if k < |s.saves| && s.saves[k].submission.Pending? then ResolveSubmission(true) else RegisterCallback
    case InStage => SubmitStage
  }

  lemma QuiescentWriteIsDone(s: State)
    requires Inv(s) && Quiescent(s) && s.trainer.Acquired?
    ensures WriteOk(s, s.writeFuture) || WriteFailed(s, s.writeFuture)
  {
    if s.writeFuture.Some? {
      QuiescentCommIsIdle(s);
      QuiescentTaskIsDone(s, s.writeFuture.value);
    }
  }

  /** No deadlock: once the other threads have run dry, a save or stage call in progress has
      a next step, except that it raises if the previous write failed or its manager has no
      metadata, and only then. */
  lemma TrainerIsNeverStuck(s: State)
    requires Reachable(s) && Quiescent(s) && !s.trainer.Idle?
    ensures (exists step :: GoesOn(step) && Enabled(s, step)) <==> !MustAbort(s)
    ensures MustAbort(s) ==> Enabled(s, AbortSave(false))
  {
    ReachableKeepsInv(s);
    if s.trainer.Acquired? { QuiescentWriteIsDone(s); }
    if !MustAbort(s) { assert GoesOn(NextCall(s)) && Enabled(s, NextCall(s)); }
  }
}
