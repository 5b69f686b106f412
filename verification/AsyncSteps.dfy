/**
 Every step of the asynchronous save protocol keeps its invariant, thread by thread: the
 trainer's steps through a save, a stage-only call and a prewarm; the guarded updates of the
 application; the staging thread's jobs; the callbacks that downgrade and release the lock;
 and the communication thread with its subprocess, which may crash at any time
 (checkpoint_saver.py, checkpoint_process.py). What follows for whole runs is in AsyncSave.
 */
module AsyncSteps {
  import opened Wrappers
  import opened AsyncProtocol

  lemma MetadataSteps(s: State, step: Step)
    requires Inv(s) && Enabled(s, step) && (step.Compute? || step.Invalidate?)
    ensures Inv(Next(s, step))
  {
    var t := Next(s, step);
    forall k: nat | k < |t.saves| ensures SaveOk(t, k) {
      assert k < |s.saves| ==> SaveOk(s, k);
    }
  }

  lemma BeginSaveStep(s: State, step: Step)
    requires Inv(s) && Enabled(s, step) && step.BeginSave?
    ensures Inv(Next(s, step))
  {
    var t := Next(s, step);
    forall k: nat | k < |t.saves| ensures SaveOk(t, k) {
      assert k < |s.saves| ==> SaveOk(s, k);
    }
  }

  lemma SurfaceStep(s: State, step: Step)
    requires Inv(s) && Enabled(s, step) && step.SurfaceWrite?
    ensures Inv(Next(s, step))
  {
    var t := Next(s, step);
    forall k: nat | k < |t.saves| ensures SaveOk(t, k) {
      assert k < |s.saves| ==> SaveOk(s, k);
    }
  }

  lemma FetchStep(s: State, step: Step)
    requires Inv(s) && Enabled(s, step) && step.FetchMetadata?
    ensures Inv(Next(s, step))
  {
    var t := Next(s, step);
    forall k: nat | k < |t.saves| ensures SaveOk(t, k) {
      assert k < |s.saves| ==> SaveOk(s, k);
    }
  }

  lemma SubmitStagingStep(s: State, step: Step)
    requires Inv(s) && Enabled(s, step) && step.SubmitStaging?
    ensures Inv(Next(s, step))
  {
    var t := Next(s, step);
    forall k: nat | k < |t.saves| ensures SaveOk(t, k) {
      assert k < |s.saves| ==> SaveOk(s, k);
    }
  }

  lemma SubmitWriteStep(s: State, step: Step)
    requires Inv(s) && Enabled(s, step) && step.SubmitWrite?
    ensures Inv(Next(s, step))
  {
    var t := Next(s, step);
    assert SaveOk(s, s.trainer.save);
    assert s.trainer.save !in s.queue;
    forall k: nat | k < |t.saves| ensures SaveOk(t, k) {
      assert k < |s.saves| ==> SaveOk(s, k);
    }
  }

  lemma ResolveStep(s: State, step: Step)
    requires Inv(s) && Enabled(s, step) && step.ResolveSubmission?
    ensures Inv(Next(s, step))
  {
    var t := Next(s, step);
    forall k: nat | k < |t.saves| ensures SaveOk(t, k) {
      assert k < |s.saves| ==> SaveOk(s, k);
    }
  }

  lemma RegisterStep(s: State, step: Step)
    requires Inv(s) && Enabled(s, step) && step.RegisterCallback?
    ensures Inv(Next(s, step))
  {
    var t := Next(s, step);
    assert SaveOk(s, s.trainer.save);
    forall k: nat | k < |t.saves| ensures SaveOk(t, k) {
      assert k < |s.saves| ==> SaveOk(s, k);
    }
  }

  function Aborted(s: State): State {
    s.(writing := None, sent := None, trainer := Idle)
  }

  lemma AbortKeepsInv(s: State)
    requires Inv(s) && CanAbort(s, false) && s.trainer.save < |s.saves|
    ensures Inv(Aborted(s))
  {
    assert SaveOk(s, s.trainer.save);
    forall k: nat | k < |s.saves| ensures SaveOk(Aborted(s), k) {
      assert SaveOk(s, k);
    }
  }

  /** A task left behind by a failed submission. */
  lemma RefusedTaskKeepsInv(s: State, k: Save)
    requires Inv(s) && k < |s.saves| && !Active(s, k) && s.saves[k].submission.NotSubmitted?
    ensures Inv(Update(s, k, s.saves[k].(submission := Submission.Refused, write := Queued)).(queue := s.queue + [k]))
  {
    var t := Update(s, k, s.saves[k].(submission := Submission.Refused, write := Queued)).(queue := s.queue + [k]);
    assert SaveOk(s, k) && k !in s.queue;
    forall j: nat | j < |t.saves| ensures SaveOk(t, j) {
      assert SaveOk(s, j);
    }
  }

  lemma AbortStep(s: State, step: Step)
    requires Inv(s) && Enabled(s, step) && step.AbortSave?
    ensures Inv(Next(s, step))
  {
    AbortKeepsInv(s);
    assert SaveOk(s, s.trainer.save);
    if step.leavesTask {
      RefusedTaskKeepsInv(Aborted(s), s.trainer.save);
    }
  }

  lemma StageSteps(s: State, step: Step)
    requires Inv(s) && Enabled(s, step) && (step.BeginStage? || step.SubmitStage? || step.AbortStage? || step.RunStageRelease?)
    ensures Inv(Next(s, step))
  {
    forall k: nat | k < |s.saves| ensures SaveOk(Next(s, step), k) {
      StageKeepsSave(s, step, k);
    }
  }

  lemma StageKeepsSave(s: State, step: Step, k: Save)
    requires Inv(s) && Enabled(s, step) && (step.BeginStage? || step.SubmitStage? || step.AbortStage? || step.RunStageRelease?)
    requires k < |s.saves|
    ensures SaveOk(Next(s, step), k)
  {
    assert SaveOk(s, k);
  }

  lemma PrewarmStep(s: State, step: Step)
    requires Inv(s) && Enabled(s, step) && step.StagePrewarm?
    ensures Inv(Next(s, step))
  {
    var t := Next(s, step);
    forall k: nat | k < |t.saves| ensures SaveOk(t, k) {
      assert k < |s.saves| ==> SaveOk(s, k);
    }
  }

  lemma AppSteps(s: State, step: Step)
    requires Inv(s) && Enabled(s, step) && (step.AppAcquire? || step.AppRelease?)
    ensures Inv(Next(s, step))
  {
    var t := Next(s, step);
    forall k: nat | k < |t.saves| ensures SaveOk(t, k) {
      assert SaveOk(s, k);
      ReadersKeepSave(s, t.reading, k);
    }
  }

  /** Holders other than the save itself are of no concern to it. */
  lemma ReadersKeepSave(s: State, reading: set<Holder>, k: Save)
    requires k < |s.saves| && SaveOk(s, k) && (SaveHolder(k) in reading <==> SaveHolder(k) in s.reading)
    ensures SaveOk(s.(reading := reading), k)
  {
  }

  lemma JobSteps(s: State, step: Step)
    requires Inv(s) && Enabled(s, step) && (step.StartJob? || step.FinishJob?)
    ensures Inv(Next(s, step))
  {
    var t := Next(s, step);
    forall k: nat | k < |t.saves| ensures SaveOk(t, k) {
      assert k < |s.saves| ==> SaveOk(s, k);
    }
  }

  lemma DowngradeStep(s: State, step: Step)
    requires Inv(s) && Enabled(s, step) && step.RunDowngrade?
    ensures Inv(Next(s, step))
  {
    DowngradeKeepsRest(s, step);
    forall k: nat | k < |s.saves| ensures SaveOk(Next(s, step), k) {
      DowngradeKeepsSave(s, step, k);
    }
  }

  lemma DowngradeKeepsRest(s: State, step: Step)
    requires Inv(s) && Enabled(s, step) && step.RunDowngrade?
    ensures var t := Next(s, step); JobsOk(t) && LockOk(t) && FuturesOk(t) && SentOk(t)
  {
    assert SaveOk(s, step.save);
  }

  lemma DowngradeKeepsSave(s: State, step: Step, k: Save)
    requires Inv(s) && Enabled(s, step) && step.RunDowngrade? && k < |s.saves|
    ensures SaveOk(Next(s, step), k)
  {
    assert SaveOk(s, k) && SaveOk(s, step.save);
  }

  lemma ReleaseStep(s: State, step: Step)
    requires Inv(s) && Enabled(s, step) && step.RunRelease?
    ensures Inv(Next(s, step))
  {
    ReleaseKeepsRest(s, step);
    forall k: nat | k < |s.saves| ensures SaveOk(Next(s, step), k) {
      ReleaseKeepsSave(s, step, k);
    }
  }

  lemma ReleaseKeepsRest(s: State, step: Step)
    requires Inv(s) && Enabled(s, step) && step.RunRelease?
    ensures var t := Next(s, step); JobsOk(t) && LockOk(t) && FuturesOk(t) && SentOk(t)
  {
    assert SaveOk(s, step.save);
  }

  lemma ReleaseKeepsSave(s: State, step: Step, k: Save)
    requires Inv(s) && Enabled(s, step) && step.RunRelease? && k < |s.saves|
    ensures SaveOk(Next(s, step), k)
  {
    assert SaveOk(s, k) && SaveOk(s, step.save);
  }

  lemma TakeTaskStep(s: State, step: Step)
    requires Inv(s) && Enabled(s, step) && step.TakeTask?
    ensures Inv(Next(s, step))
  {
    var t := Next(s, step);
    assert SaveOk(s, s.queue[0]);
    PopHead(s.queue);
    forall k: nat | k < |t.saves| ensures SaveOk(t, k) {
      TakeTaskKeepsSave(s, step, k);
    }
  }

  lemma TakeTaskKeepsSave(s: State, step: Step, k: Save)
    requires Inv(s) && Enabled(s, step) && step.TakeTask? && k < |s.saves|
    ensures SaveOk(Next(s, step), k)
  {
    assert SaveOk(s, k) && SaveOk(s, s.queue[0]);
    PopHead(s.queue);
  }

  lemma TakePayloadStep(s: State, step: Step)
    requires Inv(s) && Enabled(s, step) && step.TakePayload?
    ensures Inv(Next(s, step))
  {
    TakePayloadKeepsRest(s, step);
    forall k: nat | k < |s.saves| ensures SaveOk(Next(s, step), k) {
      TakePayloadKeepsSave(s, step, k);
    }
  }

  lemma TakePayloadKeepsRest(s: State, step: Step)
    requires Inv(s) && Enabled(s, step) && step.TakePayload?
    ensures var t := Next(s, step); JobsOk(t) && LockOk(t) && FuturesOk(t) && SentOk(t)
  {
    assert SaveOk(s, s.comm.save);
  }

  lemma TakePayloadKeepsSave(s: State, step: Step, k: Save)
    requires Inv(s) && Enabled(s, step) && step.TakePayload? && k < |s.saves|
    ensures SaveOk(Next(s, step), k)
  {
    assert SaveOk(s, k) && SaveOk(s, s.comm.save);
  }

  lemma SendStep(s: State, step: Step)
    requires Inv(s) && Enabled(s, step) && step.Send?
    ensures Inv(Next(s, step))
  {
    SendKeepsSent(s, step);
    forall k: nat | k < |s.saves| ensures SaveOk(Next(s, step), k) {
      SendKeepsSave(s, step, k);
    }
  }

  /** A write that is sent is the last launched one or the one in progress, so the
      subprocess now has what the saver believes it sent. */
  lemma SendKeepsSent(s: State, step: Step)
    requires Inv(s) && Enabled(s, step) && step.Send?
    ensures SentOk(Next(s, step))
  {
    assert SaveOk(s, s.comm.save);
  }

  lemma SendKeepsSave(s: State, step: Step, k: Save)
    requires Inv(s) && Enabled(s, step) && step.Send? && k < |s.saves|
    ensures SaveOk(Next(s, step), k)
  {
    assert SaveOk(s, k) && SaveOk(s, s.comm.save);
  }

  /** The write on the communication thread ends; it can only have succeeded if it was sent. */
  lemma TaskEnds(s: State, ok: bool, sub: Sub)
    requires Inv(s) && !s.comm.CommIdle? && s.comm.save < |s.saves| && (ok ==> s.comm.CommAwaiting?)
    requires !sub.SubWriting?
    ensures Inv(Update(s, s.comm.save, s.saves[s.comm.save].(write := Done(ok))).(comm := CommIdle, sub := sub))
  {
    assert SaveOk(s, s.comm.save);
    forall k: nat | k < |s.saves|
      ensures SaveOk(Update(s, s.comm.save, s.saves[s.comm.save].(write := Done(ok))).(comm := CommIdle, sub := sub), k)
    {
      TaskEndKeepsSave(s, ok, sub, k);
    }
  }

  lemma TaskEndKeepsSave(s: State, ok: bool, sub: Sub, k: Save)
    requires Inv(s) && !s.comm.CommIdle? && s.comm.save < |s.saves| && (ok ==> s.comm.CommAwaiting?)
    requires !sub.SubWriting? && k < |s.saves|
    ensures SaveOk(Update(s, s.comm.save, s.saves[s.comm.save].(write := Done(ok))).(comm := CommIdle, sub := sub), k)
  {
    assert SaveOk(s, k) && SaveOk(s, s.comm.save);
  }

  lemma FailSteps(s: State, step: Step)
    requires Inv(s) && Enabled(s, step) && (step.FailTask? || step.FailSend?)
    ensures Inv(Next(s, step))
  {
    TaskEnds(s, false, s.sub);
  }

  lemma FinishStep(s: State, step: Step)
    requires Inv(s) && Enabled(s, step) && step.FinishWrite?
    ensures Inv(Next(s, step))
  {
    TaskEnds(s, step.ok, if step.ok then SubIdle else SubDead);
  }

  lemma CrashStep(s: State, step: Step)
    requires Inv(s) && Enabled(s, step) && step.Crash?
    ensures Inv(Next(s, step))
  {
    if s.comm.CommAwaiting? {
      TaskEnds(s, false, SubDead);
    } else {
      IdleCrashKeepsInv(s);
    }
  }

  lemma IdleCrashKeepsInv(s: State)
    requires Inv(s) && !s.sub.SubWriting?
    ensures Inv(s.(sub := SubDead))
  {
    forall k: nat | k < |s.saves| ensures SaveOk(s.(sub := SubDead), k) { assert SaveOk(s, k); }
  }

  lemma PopHead(queue: seq<Save>)
    requires queue != [] && forall i, j :: 0 <= i < j < |queue| ==> queue[i] != queue[j]
    ensures forall k :: k in queue[1..] <==> k in queue && k != queue[0]
    ensures forall i, j :: 0 <= i < j < |queue[1..]| ==> queue[1..][i] != queue[1..][j]
  {
  }

  lemma NextKeepsInv(s: State, step: Step)
    requires Inv(s) && Enabled(s, step)
    ensures Inv(Next(s, step))
  {
    match step
    case Compute => MetadataSteps(s, step);
    case Invalidate => MetadataSteps(s, step);
    case BeginSave => BeginSaveStep(s, step);
    case SurfaceWrite => SurfaceStep(s, step);
    case FetchMetadata => FetchStep(s, step);
    case SubmitStaging => SubmitStagingStep(s, step);
    case SubmitWrite => SubmitWriteStep(s, step);
    case ResolveSubmission(_) => ResolveStep(s, step);
    case RegisterCallback => RegisterStep(s, step);
    case AbortSave(_) => AbortStep(s, step);
    case BeginStage => StageSteps(s, step);
    case SubmitStage => StageSteps(s, step);
    case AbortStage => StageSteps(s, step);
    case RunStageRelease => StageSteps(s, step);
    case StagePrewarm => PrewarmStep(s, step);
    case AppAcquire(_) => AppSteps(s, step);
    case AppRelease(_) => AppSteps(s, step);
    case StartJob => JobSteps(s, step);
    case FinishJob(_) => JobSteps(s, step);
    case RunDowngrade(_) => DowngradeStep(s, step);
    case RunRelease(_) => ReleaseStep(s, step);
    case TakeTask => TakeTaskStep(s, step);
    case TakePayload => TakePayloadStep(s, step);
    case Send => SendStep(s, step);
    case FailTask => FailSteps(s, step);
    case FailSend => FailSteps(s, step);
    case FinishWrite(_) => FinishStep(s, step);
    case Crash => CrashStep(s, step);
  }
}
