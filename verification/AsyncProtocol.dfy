/** The asynchronous save protocol (checkpoint_saver.py, checkpoint_process.py). */
module AsyncProtocol {
  import opened Wrappers
  import opened Lock

  // Steps of one trainer thread, the staging thread, the communication thread, the write
  // subprocess and the futures' callbacks, with the futures that checkpoint_manager.py keeps.
  //
  // Saves and staging jobs are numbered in the order in which they start. A metadata version
  // is one serialized bytes object; the saver compares them by identity. A callback may run
  // at any time after its future is done, which covers every thread it could run on.

  type Save = nat
  type Job = nat
  type Version = nat

  /** Who holds the staging lock: a save, a stage-only call, or a guarded update. */
  datatype Holder = SaveHolder(save: Save) | StageHolder | AppHolder(id: nat)

  datatype Submission = NotSubmitted | Pending | Accepted | Refused

  datatype Write = NoWrite | Queued | Taken | Sending | Sent | Done(ok: bool)

  datatype Callback = Unregistered | Registered | Downgraded | Released

  /** One save: the metadata version it fetched, what its payload carries, its staging
      job, its task on the communication thread, and its pending lock release. */
  datatype SaveRec = SaveRec(version: Option<Version>, payload: Option<Version>, job: Option<Job>,
                             submission: Submission, write: Write, callback: Callback)

  datatype JobKind = ForSave(save: Save) | StageOnly | Prewarm

  datatype Buffer = Empty | Filling(job: Job) | Filled(job: Job) | Spoiled(job: Job)

  /** Where the trainer is. In a save: the lock acquired, the previous write's result
      surfaced, the metadata fetched, staging submitted, the write task submitted. */
  datatype Trainer =
    | Idle
    | Acquired(save: Save) | Surfaced(save: Save) | Fetched(save: Save) | Staged(save: Save) | Submitted(save: Save)
    | InStage

  datatype Comm = CommIdle | CommTaken(save: Save) | CommSending(save: Save) | CommAwaiting(save: Save)

  datatype Sub = SubIdle | SubWriting(save: Save, using: Option<Version>) | SubDead

  datatype State = State(
    hasManager: bool, current: Option<Version>, versions: nat,
    writing: Option<Holder>, reading: set<Holder>,
    trainer: Trainer, sent: Option<Version>, writeFuture: Option<Save>,
    managerWrite: Option<Save>, prewarm: Option<Job>, stageOnly: Option<Job>,
    saves: seq<SaveRec>,
    jobs: seq<JobKind>, started: nat, outcomes: seq<bool>, buffer: Buffer,
    queue: seq<Save>, comm: Comm, sub: Sub, cache: Option<Version>, wrote: map<Save, Option<Version>>)

  function Counts(s: State): Counters {
    Counters(|s.reading|, s.writing.Some?)
  }

  predicate JobDone(s: State, j: Job) { j < |s.outcomes| }

  predicate StagedOk(s: State, k: Save) {
    k < |s.saves| && s.saves[k].job.Some? && JobDone(s, s.saves[k].job.value) && s.outcomes[s.saves[k].job.value]
  }

  predicate StagedFailed(s: State, k: Save) {
    k < |s.saves| && s.saves[k].job.Some? && JobDone(s, s.saves[k].job.value) && !s.outcomes[s.saves[k].job.value]
  }

  /** The future is unset, or done without an error. */
  predicate WriteOk(s: State, f: Option<Save>) {
    f.None? || (f.value < |s.saves| && s.saves[f.value].write == Done(true))
  }

  predicate WriteFailed(s: State, f: Option<Save>) {
    f.Some? && f.value < |s.saves| && s.saves[f.value].write == Done(false)
  }

  predicate PrewarmOk(s: State) {
    s.prewarm.None? || (JobDone(s, s.prewarm.value) && s.outcomes[s.prewarm.value])
  }

  function InSave(t: Trainer): Option<Save> {
    if t.Idle? || t.InStage? then None else Some(t.save)
  }

  datatype Step =
    // the metadata manager, on the trainer
    | Compute | Invalidate
    // save
    | BeginSave | SurfaceWrite | FetchMetadata | SubmitStaging | SubmitWrite | ResolveSubmission(accepted: bool)
    | RegisterCallback | AbortSave(leavesTask: bool)
    // stage and prewarm
    | BeginStage | SubmitStage | AbortStage | StagePrewarm
    // guarded updates
    | AppAcquire(id: nat) | AppRelease(id: nat)
    // the staging thread
    | StartJob | FinishJob(ok: bool)
    // callbacks
    | RunDowngrade(save: Save) | RunRelease(save: Save) | RunStageRelease
    // the communication thread and the subprocess
    | TakeTask | FailTask | TakePayload | Send | FailSend | FinishWrite(ok: bool) | Crash

  /** An exception may end a save anywhere before its write task is submitted; a failed
      submission may leave a queued write behind. */
  predicate CanAbort(s: State, leavesTask: bool) {
    || ((s.trainer.Surfaced? || s.trainer.Fetched? || s.trainer.Staged?) && (leavesTask ==> s.trainer.Staged?))
    || (s.trainer.Acquired? && !leavesTask && (WriteOk(s, s.writeFuture) || WriteFailed(s, s.writeFuture)))
  }

  predicate Enabled(s: State, step: Step) {
    match step
    case Compute => s.hasManager && s.trainer.Idle?
    case Invalidate => s.hasManager && s.trainer.Idle?
    case BeginSave => s.trainer.Idle? && PrewarmOk(s) && Available(Counts(s), WRITE)
    case SurfaceWrite => s.trainer.Acquired? && WriteOk(s, s.writeFuture)
    case FetchMetadata => s.trainer.Surfaced? && s.trainer.save < |s.saves| && (s.hasManager ==> s.current.Some?)
    case SubmitStaging => s.trainer.Fetched? && s.trainer.save < |s.saves|
    case SubmitWrite => s.trainer.Staged? && s.trainer.save < |s.saves|
    case ResolveSubmission(_) => s.trainer.Submitted? && s.trainer.save < |s.saves| && s.saves[s.trainer.save].submission.Pending?
    case RegisterCallback => s.trainer.Submitted? && s.trainer.save < |s.saves| && !s.saves[s.trainer.save].submission.Pending?
    case AbortSave(leavesTask) => CanAbort(s, leavesTask) && s.trainer.save < |s.saves|
    case BeginStage => s.trainer.Idle? && Available(Counts(s), WRITE)
    case SubmitStage => s.trainer.InStage?
    case AbortStage => s.trainer.InStage?
    case StagePrewarm => s.trainer.Idle? && WriteOk(s, s.managerWrite) && PrewarmOk(s)
    case AppAcquire(id) => Available(Counts(s), READ) && AppHolder(id) !in s.reading
    case AppRelease(id) => AppHolder(id) in s.reading
    case StartJob => s.started == |s.outcomes| < |s.jobs|
    case FinishJob(_) => s.started == |s.outcomes| + 1
    case RunDowngrade(k) => k < |s.saves| && s.saves[k].callback.Registered? && s.saves[k].job.Some? && JobDone(s, s.saves[k].job.value)
    case RunRelease(k) => k < |s.saves| && s.saves[k].callback.Downgraded? && s.saves[k].write.Done?
    case RunStageRelease => s.stageOnly.Some? && JobDone(s, s.stageOnly.value)
    case TakeTask => s.comm.CommIdle? && s.queue != [] && s.queue[0] < |s.saves|
    case FailTask => s.comm.CommTaken? && s.comm.save < |s.saves|
      && (s.saves[s.comm.save].submission.Refused? || (s.saves[s.comm.save].submission.Accepted? && StagedFailed(s, s.comm.save)))
    case TakePayload => s.comm.CommTaken? && s.comm.save < |s.saves| && s.saves[s.comm.save].submission.Accepted? && StagedOk(s, s.comm.save)
    case Send => s.comm.CommSending? && s.comm.save < |s.saves| && s.sub.SubIdle?
    case FailSend => s.comm.CommSending? && s.comm.save < |s.saves| && s.sub.SubDead?
    case FinishWrite(_) => s.comm.CommAwaiting? && s.comm.save < |s.saves| && s.sub.SubWriting? && s.sub.save == s.comm.save
    case Crash => !s.sub.SubDead? && (s.comm.CommAwaiting? ==> s.comm.save < |s.saves|)
  }

  function Update(s: State, k: Save, r: SaveRec): State
    requires k < |s.saves|
  {
    s.(saves := s.saves[k := r])
  }

  /** What a write uses: the metadata it carries, or else what the subprocess last got. */
  function Effective(payload: Option<Version>, cache: Option<Version>): Option<Version> {
    if payload.Some? then payload else cache
  }

  function TrainerStep(s: State, step: Step): State
    requires Enabled(s, step)
  {
    match step
    case Compute => s.(current := Some(s.versions), versions := s.versions + 1)
    case Invalidate => s.(current := None)
    case BeginSave =>
      var r := SaveRec(None, None, None, NotSubmitted, NoWrite, Unregistered);
      s.(saves := s.saves + [r], writing := Some(SaveHolder(|s.saves|)), trainer := Acquired(|s.saves|), prewarm := None)
    case SurfaceWrite => s.(writeFuture := None, trainer := Surfaced(s.trainer.save))
    case FetchMetadata =>
      var k := s.trainer.save;
      var fetched := if s.hasManager then s.current else None;
      var payload := if fetched == s.sent then None else fetched;
      Update(s, k, s.saves[k].(version := fetched, payload := payload))
        .(sent := if s.hasManager then fetched else s.sent, trainer := Fetched(k))
    case SubmitStaging =>
      var k := s.trainer.save;
      Update(s, k, s.saves[k].(job := Some(|s.jobs|))).(jobs := s.jobs + [ForSave(k)], trainer := Staged(k))
    case SubmitWrite =>
      var k := s.trainer.save;
      Update(s, k, s.saves[k].(submission := Pending, write := Queued)).(queue := s.queue + [k], trainer := Submitted(k))
    case ResolveSubmission(accepted) =>
      var k := s.trainer.save;
      Update(s, k, s.saves[k].(submission := if accepted then Submission.Accepted else Submission.Refused))
    case RegisterCallback =>
      var k := s.trainer.save;
      Update(s, k, s.saves[k].(callback := Registered)).(writeFuture := Some(k), managerWrite := Some(k), trainer := Idle)
    case AbortSave(leavesTask) =>
      var k := s.trainer.save;
      var aborted := s.(writing := None, sent := None, trainer := Idle);
      if leavesTask then
        Update(aborted, k, s.saves[k].(submission := Submission.Refused, write := Queued)).(queue := s.queue + [k])
      else aborted
    case BeginStage => s.(writing := Some(StageHolder), trainer := InStage)
    case SubmitStage => s.(jobs := s.jobs + [StageOnly], stageOnly := Some(|s.jobs|), trainer := Idle)
    case AbortStage => s.(writing := None, trainer := Idle)
    case StagePrewarm => s.(jobs := s.jobs + [Prewarm], prewarm := Some(|s.jobs|), managerWrite := None)
    case _ => s
  }

  function OtherStep(s: State, step: Step): State
    requires Enabled(s, step)
  {
    match step
    case AppAcquire(id) => s.(reading := s.reading + {AppHolder(id)})
    case AppRelease(id) => s.(reading := s.reading - {AppHolder(id)})
    case StartJob => s.(started := s.started + 1, buffer := Filling(s.started))
    case FinishJob(ok) =>
      var j := |s.outcomes|;
      s.(outcomes := s.outcomes + [ok], buffer := if ok then Filled(j) else Spoiled(j))
    case RunDowngrade(k) =>
      Update(s, k, s.saves[k].(callback := Downgraded)).(writing := None, reading := s.reading + {SaveHolder(k)})
    case RunRelease(k) =>
      Update(s, k, s.saves[k].(callback := Released)).(reading := s.reading - {SaveHolder(k)})
    case RunStageRelease => s.(writing := None, stageOnly := None)
    case TakeTask =>
      var k := s.queue[0];
      Update(s, k, s.saves[k].(write := Taken)).(queue := s.queue[1..], comm := CommTaken(k))
    case FailTask => Update(s, s.comm.save, s.saves[s.comm.save].(write := Done(false))).(comm := CommIdle)
    case TakePayload => Update(s, s.comm.save, s.saves[s.comm.save].(write := Sending)).(comm := CommSending(s.comm.save))
    case Send =>
      var k := s.comm.save;
      var using := Effective(s.saves[k].payload, s.cache);
      Update(s, k, s.saves[k].(write := Sent))
        .(comm := CommAwaiting(k), cache := using, sub := SubWriting(k, using), wrote := s.wrote[k := using])
    case FailSend => Update(s, s.comm.save, s.saves[s.comm.save].(write := Done(false))).(comm := CommIdle)
    case FinishWrite(ok) =>
      Update(s, s.comm.save, s.saves[s.comm.save].(write := Done(ok))).(comm := CommIdle, sub := if ok then SubIdle else SubDead)
    case Crash =>
      if s.comm.CommAwaiting? then
        Update(s, s.comm.save, s.saves[s.comm.save].(write := Done(false))).(comm := CommIdle, sub := SubDead)
      else s.(sub := SubDead)
    case _ => s
  }

  predicate IsTrainerStep(step: Step) {
    step.Compute? || step.Invalidate? || step.BeginSave? || step.SurfaceWrite? || step.FetchMetadata? || step.SubmitStaging?
    || step.SubmitWrite? || step.ResolveSubmission? || step.RegisterCallback? || step.AbortSave? || step.BeginStage?
    || step.SubmitStage? || step.AbortStage? || step.StagePrewarm?
  }

  function Next(s: State, step: Step): State
    requires Enabled(s, step)
  {
    if IsTrainerStep(step) then TrainerStep(s, step) else OtherStep(s, step)
  }

  ghost predicate Start(s: State) {
    && s.current.None? && s.writing.None? && s.reading == {} && s.trainer.Idle? && s.sent.None? && s.writeFuture.None?
    && s.managerWrite.None? && s.prewarm.None? && s.stageOnly.None? && s.saves == [] && s.jobs == [] && s.started == 0
    && s.outcomes == [] && s.buffer.Empty? && s.queue == [] && s.comm.CommIdle? && s.sub.SubIdle? && s.cache.None?
    && s.wrote == map[]
  }

  // ----- the invariant

  /** The staging thread runs one job at a time, in order, and the buffer shows the last. */
  ghost predicate JobsOk(s: State) {
    && |s.outcomes| <= s.started <= |s.outcomes| + 1 && s.started <= |s.jobs|
    && (s.started > |s.outcomes| ==> s.buffer == Filling(|s.outcomes|))
    && (s.started == |s.outcomes| > 0 ==>
         s.buffer == if s.outcomes[s.started - 1] then Filled(s.started - 1) else Spoiled(s.started - 1))
  }

  predicate InProgress(s: State, k: Save) { InSave(s.trainer) == Some(k) }

  predicate Launched(r: SaveRec) { !r.callback.Unregistered? }

  /** In progress, or launched with its lock release still to come. */
  predicate Active(s: State, k: Save) {
    k < |s.saves| && (InProgress(s, k) || s.saves[k].callback.Registered? || s.saves[k].callback.Downgraded?)
  }

  /** The lock excludes readers while held for WRITE; a stage-only call holds it from its
      acquire to the end of its job. */
  ghost predicate LockOk(s: State) {
    && (s.writing.Some? ==> s.reading == {} && !s.writing.value.AppHolder?)
    && (s.writing == Some(StageHolder) <==> s.trainer.InStage? || s.stageOnly.Some?)
    && (s.trainer.InStage? ==> s.stageOnly.None?)
    && (s.writing.Some? && s.writing.value.SaveHolder? ==> s.writing.value.save < |s.saves|)
    && (forall h :: h in s.reading && h.SaveHolder? ==> h.save < |s.saves|)
  }

  /** A save holds the lock for WRITE while it is in progress or launched and not yet
      downgraded, and for reading from the downgrade to its release. */
  ghost predicate HoldOk(s: State, k: Save)
    requires k < |s.saves|
  {
    && (s.writing == Some(SaveHolder(k)) <==> InProgress(s, k) || s.saves[k].callback.Registered?)
    && (SaveHolder(k) in s.reading <==> s.saves[k].callback.Downgraded?)
  }

  /** The fields of a save agree with where it is. */
  ghost predicate PhaseOk(s: State, k: Save)
    requires k < |s.saves|
  {
    var r := s.saves[k];
    && (Active(s, k) ==> k + 1 == |s.saves|)
    && (InProgress(s, k) ==> r.callback.Unregistered?)
    && (r.write.NoWrite? <==> r.submission.NotSubmitted?)
    && (r.submission.Pending? ==> s.trainer == Submitted(k))
    && (InProgress(s, k) ==> (r.submission.NotSubmitted? <==> !s.trainer.Submitted?))
    && (InProgress(s, k) ==> (r.job.None? <==> !s.trainer.Staged? && !s.trainer.Submitted?))
    && (Launched(r) ==> r.job.Some? && !r.submission.NotSubmitted?)
    && (r.job.Some? ==> r.job.value < |s.jobs| && s.jobs[r.job.value] == ForSave(k))
    && (r.callback.Downgraded? || r.callback.Released? ==> r.job.Some? && JobDone(s, r.job.value))
    && (r.callback.Released? ==> r.write.Done?)
    && (!Active(s, k) && (r.submission.Pending? || r.submission.Accepted?) ==> r.write.Done?)
    && (Active(s, k) && r.job.Some? && !r.write.Done? ==> r.job.value + 1 == |s.jobs|)
  }

  /** The communication thread and the futures agree with the save. */
  ghost predicate TaskOk(s: State, k: Save)
    requires k < |s.saves|
  {
    var r := s.saves[k];
    && (r.write.Queued? <==> k in s.queue)
    && (r.write.Taken? <==> s.comm == CommTaken(k))
    && (r.write.Sending? <==> s.comm == CommSending(k))
    && (r.write.Sent? <==> s.comm == CommAwaiting(k))
    && (r.write.Sending? || r.write.Sent? ==> r.submission.Accepted? && StagedOk(s, k))
    && (Launched(r) && !r.write.Done? ==> s.writeFuture == Some(k) && s.managerWrite == Some(k))
    && (Launched(r) && r.write == Done(false) ==> s.writeFuture == Some(k))
  }

  ghost predicate FuturesOk(s: State) {
    && (s.writeFuture.Some? ==> s.writeFuture.value < |s.saves| && Launched(s.saves[s.writeFuture.value]))
    && (s.managerWrite.Some? ==> s.managerWrite.value < |s.saves| && Launched(s.saves[s.managerWrite.value]))
    && (!s.comm.CommIdle? ==> s.comm.save < |s.saves|)
    && (InSave(s.trainer).Some? ==> s.trainer.save < |s.saves|)
    && (forall k :: k in s.queue ==> k < |s.saves|)
    && (forall k :: k in s.wrote ==> k < |s.saves|)
    && (forall i, j :: 0 <= i < j < |s.queue| ==> s.queue[i] != s.queue[j])
    && (s.sub.SubWriting? ==> s.comm == CommAwaiting(s.sub.save) && s.sub.save in s.wrote && s.wrote[s.sub.save] == s.sub.using)
    && (s.comm.CommAwaiting? ==> s.sub.SubWriting? && s.sub.save == s.comm.save)
    && (s.stageOnly.Some? ==> s.stageOnly.value < |s.jobs|)
    && (s.trainer.Surfaced? || s.trainer.Fetched? || s.trainer.Staged? || s.trainer.Submitted? ==> s.writeFuture.None?)
  }

  predicate Fetches(s: State, k: Save) {
    k < |s.saves| && (s.trainer == Fetched(k) || s.trainer == Staged(k) || s.trainer == Submitted(k))
  }

  /** Until its write is sent, a save brings its own metadata version along or the
      subprocess already has it; once sent, the subprocess has it. */
  ghost predicate VersionOk(s: State, k: Save)
    requires k < |s.saves|
  {
    var r := s.saves[k];
    && (!s.hasManager ==> r.payload.None?)
    && ((Fetches(s, k) || (Active(s, k) && Launched(r))) && !r.write.Sent? && !r.write.Done? ==>
         Effective(r.payload, s.cache) == r.version)
    && ((Fetches(s, k) || (Active(s, k) && Launched(r))) && (r.write.Sent? || r.write == Done(true)) ==> s.cache == r.version)
  }

  /** What the saver believes it sent is what the subprocess will have when the last
      launched write is done; after a failed write nothing is promised. */
  ghost predicate SentMatches(s: State, sent: Option<Version>) {
    if InSave(s.trainer).Some? && Fetches(s, s.trainer.save) then
      sent == s.saves[s.trainer.save].version
    else if s.writeFuture.None? then
      sent == s.cache
    else
      && s.writeFuture.value < |s.saves|
      && (s.saves[s.writeFuture.value].write == Done(true) ==> sent == s.cache)
      && (!s.saves[s.writeFuture.value].write.Done? ==> sent == s.saves[s.writeFuture.value].version)
  }

  ghost predicate SentOk(s: State) {
    && (!s.hasManager ==> s.sent.None? && s.cache.None? && s.current.None?)
    && (s.sent.Some? ==> SentMatches(s, s.sent))
  }

  /** What was written used the version the save itself fetched. */
  ghost predicate WroteOk(s: State, k: Save)
    requires k < |s.saves|
  {
    k in s.wrote ==> s.wrote[k] == s.saves[k].version && (s.saves[k].write.Sent? || s.saves[k].write.Done?)
  }

  ghost predicate SaveOk(s: State, k: Save)
    requires k < |s.saves|
  {
    HoldOk(s, k) && PhaseOk(s, k) && TaskOk(s, k) && VersionOk(s, k) && WroteOk(s, k)
  }

  ghost predicate Inv(s: State) {
    && JobsOk(s) && LockOk(s) && FuturesOk(s) && SentOk(s)
    && (forall k: nat :: k < |s.saves| ==> SaveOk(s, k))
  }
}
