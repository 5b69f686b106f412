/** The readers-writer lock that guards the staging buffers (lock.py). */
module Lock {
  import opened Wrappers

  // The class is one lock with its counters; waiting is modelled by the states other threads
  // leave behind at each wakeup. The schedule below it lets any number of threads take
  // steps in any order, with spurious wakeups and expiring timeouts.

  datatype Mode = READ | WRITE

  /** The two counters under the condition variable. */
  datatype Counters = Counters(readers: nat, writerActive: bool)

  predicate Available(c: Counters, mode: Mode) {
    !c.writerActive && (mode == WRITE ==> c.readers == 0)
  }

  function Grant(c: Counters, mode: Mode): Counters {
    match mode
    case READ => c.(readers := c.readers + 1)
    case WRITE => c.(writerActive := true)
  }

  /** The counters after a release of a read hold, after a release of the WRITE hold and
      after a downgrade; None where the lock raises. */
  function ReadReleased(c: Counters): Option<Counters> {
    if c.readers == 0 then None else Some(c.(readers := c.readers - 1))
  }

  function WriteReleased(c: Counters): Option<Counters> {
    if c.writerActive then Some(c.(writerActive := false)) else None
  }

  function Downgraded(c: Counters): Option<Counters> {
    if c.writerActive then Some(Counters(c.readers + 1, false)) else None
  }

  predicate MutuallyExclusive(c: Counters) {
    c.writerActive ==> c.readers == 0
  }

  datatype LockError = BadTimeout | NotAcquired

  /** What a thread sees when a wait returns: the lock as others left it, and the clock. */
  datatype Wakeup = Wakeup(seen: Counters, now: int)

  datatype Acquired = Granted | Refused | StillWaiting

  class RWLock {
    var readers: nat
    var writerActive: bool

    constructor ()
      ensures State() == Counters(0, false)
    {
      readers, writerActive := 0, false;
    }

    function State(): Counters
      reads this
    {
      Counters(readers, writerActive)
    }

    /** `timeout` is None for -1. The wait loop consumes the wakeups in order and ends at the
        first state seen in which the mode is available, with a grant, or which is seen at
        or after the deadline, with a refusal; if no state seen is one of these the thread
        is still waiting. */
    method Acquire(mode: Mode, blocking: bool, timeout: Option<int>, start: int, wakeups: seq<Wakeup>)
      returns (r: Result<Acquired, LockError>)
      modifies this
      ensures r.Err? <==> timeout.Some? && (!blocking || timeout.value < 0)
      ensures r.Err? ==> r.error == BadTimeout && State() == old(State())
      ensures r.Ok? && !blocking ==> r.value == AnswerTo(old(State()), mode) && State() == LeftAs(old(State()), mode)
      ensures r.Ok? && blocking ==>
        var seen, deadline := Seen(old(State()), start, wakeups), Deadline(start, timeout);
        && (forall i: nat :: FirstEnd(seen, i, mode, deadline) ==>
              r.value == AnswerTo(seen[i].seen, mode) && State() == LeftAs(seen[i].seen, mode))
        && (r.value == StillWaiting <==> NoEnd(seen, mode, deadline))
        && (r.value == StillWaiting ==> State() == seen[|seen| - 1].seen)
    {
      if timeout.Some? && (!blocking || timeout.value < 0) {
        return Err(BadTimeout);
      }
      ghost var seen, deadline := Seen(State(), start, wakeups), Deadline(start, timeout);
      ghost var end: nat := 0;
      if !Available(State(), mode) {
        if !blocking {
          return Ok(Refused);
        }
        var now := start;
        var i := 0;
        while !Available(State(), mode)
          invariant i <= |wakeups| && State() == seen[i].seen && now == seen[i].now
          invariant forall j :: 0 <= j < i ==> !Ends(seen[j], mode, deadline)
          decreases |wakeups| - i
        {
          if timeout.Some? && start + timeout.value - now <= 0 {
            return Ok(Refused);
          }
          if i == |wakeups| {
            return Ok(StillWaiting);
          }
          readers, writerActive, now := wakeups[i].seen.readers, wakeups[i].seen.writerActive, wakeups[i].now;
          i := i + 1;
        }
        end := i;
      }
      assert Ends(seen[end], mode, deadline);
      match mode {
        case READ => readers := readers + 1;
        case WRITE => writerActive := true;
      }
      return Ok(Granted);
    }

    method ReleaseRead() returns (r: Result<bool, LockError>)
      modifies this
      ensures r.Err? <==> old(readers) == 0
      ensures State() == if r.Ok? then old(State()).(readers := old(readers) - 1) else old(State())
      ensures r.Ok? ==> r.value == (readers == 0)
      ensures ReadReleased(old(State())) == if r.Ok? then Some(State()) else None
    {
      if readers <= 0 {
        return Err(NotAcquired);
      }
      readers := readers - 1;
      return Ok(readers == 0);
    }

    method ReleaseWrite() returns (r: Result<bool, LockError>)
      modifies this
      ensures r == if old(writerActive) then Ok(true) else Err(NotAcquired)
      ensures State() == old(State()).(writerActive := false)
      ensures WriteReleased(old(State())) == if r.Ok? then Some(State()) else None
    {
      if !writerActive {
        return Err(NotAcquired);
      }
      writerActive := false;
      return Ok(true);
    }

    method Downgrade() returns (r: Result<bool, LockError>)
      modifies this
      ensures r == if old(writerActive) then Ok(true) else Err(NotAcquired)
      ensures State() == if r.Ok? then Counters(old(readers) + 1, false) else old(State())
      ensures Downgraded(old(State())) == if r.Ok? then Some(State()) else None
    {
      if !writerActive {
        return Err(NotAcquired);
      }
      writerActive := false;
      readers := readers + 1;
      return Ok(true);
    }

    method LockedMode() returns (r: Option<Mode>)
      ensures r == Some(WRITE) <==> writerActive
      ensures r == None <==> !writerActive && readers == 0
    {
      if writerActive {
        return Some(WRITE);
      }
      return if readers > 0 then Some(READ) else None;
    }
  }

  /** The states the thread sees: as it comes, and after each wakeup. */
  function Seen(first: Counters, start: int, wakeups: seq<Wakeup>): (r: seq<Wakeup>)
    ensures |r| == |wakeups| + 1
  {
    [Wakeup(first, start)] + wakeups
  }

  function Deadline(start: int, timeout: Option<int>): Option<int> {
    if timeout.Some? then Some(start + timeout.value) else None
  }

  /** A state that ends the wait: the mode is available, or the deadline has come. */
  predicate Ends(w: Wakeup, mode: Mode, deadline: Option<int>) {
    Available(w.seen, mode) || (deadline.Some? && deadline.value <= w.now)
  }

  ghost predicate FirstEnd(seen: seq<Wakeup>, i: nat, mode: Mode, deadline: Option<int>) {
    i < |seen| && Ends(seen[i], mode, deadline) && forall j :: 0 <= j < i ==> !Ends(seen[j], mode, deadline)
  }

  ghost predicate NoEnd(seen: seq<Wakeup>, mode: Mode, deadline: Option<int>) {
    forall i :: 0 <= i < |seen| ==> !Ends(seen[i], mode, deadline)
  }

  function AnswerTo(c: Counters, mode: Mode): Acquired { if Available(c, mode) then Granted else Refused }

  function LeftAs(c: Counters, mode: Mode): Counters { if Available(c, mode) then Grant(c, mode) else c }

  // ----- schedules

  type Thread = nat
  /** Identifies one successful acquire until it is released. */
  type Token = nat

  /** A thread is outside the lock, asleep in a wait that nothing has ended yet, or woken
      and about to check again. */
  datatype Phase = Outside | Asleep(mode: Mode, timed: bool) | Woken(mode: Mode, timed: bool)

  /** The lock, the threads, and who holds what. The lock keeps only the counters; the
      holders are recorded to say what the counters mean. */
  datatype World = World(counters: Counters, threads: map<Thread, Phase>, reading: set<Token>, writing: Option<Token>)

  datatype Step =
    | Enter(thread: Thread, mode: Mode, blocking: bool, timed: bool, expired: bool, token: Token)
    | Wake(thread: Thread)
    | Recheck(thread: Thread, expired: bool, token: Token)
    | ReleaseReadOf(token: Token)
    | ReleaseWriteOf(token: Token)
    | DowngradeOf(token: Token)

  predicate FreshToken(w: World, token: Token) {
    token !in w.reading && w.writing != Some(token)
  }

  predicate Enabled(w: World, step: Step) {
    match step
    case Enter(t, mode, blocking, timed, expired, token) =>
      t in w.threads && w.threads[t].Outside? && FreshToken(w, token) && (timed ==> blocking) && (expired ==> timed)
    case Wake(t) => t in w.threads && w.threads[t].Asleep?
    case Recheck(t, expired, token) =>
      t in w.threads && w.threads[t].Woken? && FreshToken(w, token) && (expired ==> w.threads[t].timed)
    case ReleaseReadOf(token) => token in w.reading
    case ReleaseWriteOf(token) => w.writing == Some(token)
    case DowngradeOf(token) => w.writing == Some(token)
  }

  function Granting(w: World, t: Thread, mode: Mode, token: Token): World {
    World(Grant(w.counters, mode), w.threads[t := Outside],
          if mode == READ then w.reading + {token} else w.reading,
          if mode == WRITE then Some(token) else w.writing)
  }

  function NotifyAll(threads: map<Thread, Phase>): map<Thread, Phase> {
    map t | t in threads :: if threads[t].Asleep? then Woken(threads[t].mode, threads[t].timed) else threads[t]
  }

  /** Each step is one hold of the condition's mutex. */
  function Next(w: World, step: Step): World
    requires Enabled(w, step)
  {
    match step
    case Enter(t, mode, blocking, timed, expired, token) =>
      if Available(w.counters, mode) then Granting(w, t, mode, token)
      else if !blocking || expired then w
      else w.(threads := w.threads[t := Asleep(mode, timed)])
    case Wake(t) => w.(threads := w.threads[t := Woken(w.threads[t].mode, w.threads[t].timed)])
    case Recheck(t, expired, token) =>
      var mode := w.threads[t].mode;
      if Available(w.counters, mode) then Granting(w, t, mode, token)
      else if expired then w.(threads := w.threads[t := Outside])
      else w.(threads := w.threads[t := Asleep(mode, w.threads[t].timed)])
    case ReleaseReadOf(token) =>
      if w.counters.readers == 0 then w
      else
        var after := w.counters.(readers := w.counters.readers - 1);
        World(after, if after.readers == 0 then NotifyAll(w.threads) else w.threads, w.reading - {token}, w.writing)
    case ReleaseWriteOf(token) =>
      if !w.counters.writerActive then w
      else World(w.counters.(writerActive := false), NotifyAll(w.threads), w.reading, None)
    case DowngradeOf(token) =>
      if !w.counters.writerActive then w
      else World(Counters(w.counters.readers + 1, false), NotifyAll(w.threads), w.reading + {token}, None)
  }

  /** The counters count the holders, and a writer excludes readers. */
  ghost predicate Counted(w: World) {
    && w.counters.readers == |w.reading|
    && (w.counters.writerActive <==> w.writing.Some?)
    && MutuallyExclusive(w.counters)
  }

  /** Each step of a schedule does to the counters what the lock's method does: an acquire
      is granted exactly when the mode is available, and a holder's release or downgrade
      never raises. */
  lemma StepsActAsTheLock(w: World, step: Step)
    requires Counted(w) && Enabled(w, step)
    ensures var c, t := w.counters, Next(w, step).counters;
      match step
      case Enter(_, mode, _, _, _, _) => t == if Available(c, mode) then Grant(c, mode) else c
      case Recheck(thread, _, _) => t == if Available(c, w.threads[thread].mode) then Grant(c, w.threads[thread].mode) else c
      case Wake(_) => t == c
      case ReleaseReadOf(_) => ReadReleased(c) == Some(t)
      case ReleaseWriteOf(_) => WriteReleased(c) == Some(t)
      case DowngradeOf(_) => Downgraded(c) == Some(t)
  {
    if step.ReleaseReadOf? {
      assert |w.reading - {step.token}| == |w.reading| - 1;
    }
  }

  /** No thread that is asleep, un-notified, could have the lock. */
  ghost predicate NoneSleepsInVain(threads: map<Thread, Phase>, c: Counters) {
    forall t :: t in threads && threads[t].Asleep? ==> !Available(c, threads[t].mode)
  }

  ghost predicate Inv(w: World) {
    Counted(w) && NoneSleepsInVain(w.threads, w.counters)
  }

  lemma NextKeepsCount(w: World, step: Step)
    requires Counted(w) && Enabled(w, step)
    ensures Counted(Next(w, step))
  {
    match step
    case Enter(t, mode, blocking, timed, expired, token) =>
    case Wake(t) =>
    case Recheck(t, expired, token) =>
    case ReleaseReadOf(token) =>
      assert |w.reading - {token}| == |w.reading| - 1;
    case ReleaseWriteOf(token) =>
    case DowngradeOf(token) =>
      assert w.reading == {};
  }

  lemma NextKeepsInv(w: World, step: Step)
    requires Inv(w) && Enabled(w, step)
    ensures Inv(Next(w, step))
  {
    NextKeepsCount(w, step);
    match step
    case Enter(t, mode, blocking, timed, expired, token) =>
    case Wake(t) =>
    case Recheck(t, expired, token) =>
    case ReleaseReadOf(token) =>
    case ReleaseWriteOf(token) =>
    case DowngradeOf(token) =>
  }

  /** A run: every step is enabled in the state the earlier ones lead to. */
  ghost predicate IsRun(w: World, steps: seq<Step>)
    decreases |steps|
  {
    steps == [] || (Enabled(w, steps[0]) && IsRun(Next(w, steps[0]), steps[1..]))
  }

  ghost function After(w: World, steps: seq<Step>): World
    requires IsRun(w, steps)
    decreases |steps|
  {
    if steps == [] then w else After(Next(w, steps[0]), steps[1..])
  }

  ghost predicate Start(w: World) {
    w.counters == Counters(0, false) && w.reading == {} && w.writing == None && forall t :: t in w.threads ==> w.threads[t].Outside?
  }

  lemma {:induction false} RunKeepsInv(w: World, steps: seq<Step>)
    requires Inv(w) && IsRun(w, steps)
    ensures Inv(After(w, steps))
    decreases |steps|
  {
    if steps != [] {
      NextKeepsInv(w, steps[0]);
      RunKeepsInv(Next(w, steps[0]), steps[1..]);
    }
  }

  /** Over all schedules: a writer is never active together with a reader or another
      writer, and no sleeping thread that was not notified could have the lock. */
  lemma SafeInEveryRun(w: World, steps: seq<Step>)
    requires Start(w) && IsRun(w, steps)
    ensures var last := After(w, steps);
      && MutuallyExclusive(last.counters) && (last.writing.Some? ==> last.reading == {})
      && NoneSleepsInVain(last.threads, last.counters)
  {
    RunKeepsInv(w, steps);
  }

  /** An acquire that is refused, by polling or by its timeout, changes nothing but that
      the thread is outside again. */
  lemma RefusalChangesNothing(w: World, step: Step)
    requires Enabled(w, step) && (step.Enter? || step.Recheck?)
    requires !Available(w.counters, if step.Enter? then step.mode else w.threads[step.thread].mode)
    requires Next(w, step).threads[step.thread].Outside?
    ensures Next(w, step) == w.(threads := w.threads[step.thread := Outside])
  {
  }

  /** Polling, and a check at or after the deadline, never leave the thread waiting: it is
      outside again, with the lock or without. */
  lemma ExpiredIsAnswered(w: World, step: Step)
    requires Enabled(w, step) && (step.Enter? || step.Recheck?) && (step.expired || (step.Enter? && !step.blocking))
    ensures Next(w, step).threads[step.thread].Outside?
    ensures !Available(w.counters, if step.Enter? then step.mode else w.threads[step.thread].mode) ==>
      Next(w, step) == w.(threads := w.threads[step.thread := Outside])
  {
    assert step.Enter? ==> w.threads == w.threads[step.thread := Outside];
  }

  /** A thread that waits with a timeout cannot be kept waiting: from any state, its wakeup
      and its check after the deadline are a run that ends its acquire. */
  lemma TimedThreadGetsOut(w: World, t: Thread, token: Token) returns (steps: seq<Step>)
    requires t in w.threads && !w.threads[t].Outside? && w.threads[t].timed && FreshToken(w, token)
    ensures IsRun(w, steps) && t in After(w, steps).threads && After(w, steps).threads[t].Outside?
    ensures forall u :: u in w.threads && u != t ==> u in After(w, steps).threads && After(w, steps).threads[u] == w.threads[u]
  {
    var check := Recheck(t, true, token);
    if w.threads[t].Woken? {
      steps := [check];
      assert steps[1..] == [] && IsRun(Next(w, check), []);
      assert After(w, steps) == After(Next(w, check), steps[1..]) == Next(w, check);
    } else {
      steps := [Wake(t), check];
      var woken := Next(w, Wake(t));
      assert steps[1..] == [check] && steps[1..][1..] == [];
      assert IsRun(Next(woken, check), []) && IsRun(woken, steps[1..]);
      assert After(w, steps) == After(woken, steps[1..]) == After(Next(woken, check), steps[1..][1..]) == Next(woken, check);
    }
  }

  predicate Releases(step: Step, token: Token) {
    step == ReleaseReadOf(token)
  }

  /** Until a read token is released it stays held and no writer gets in, whoever else
      comes and goes. In particular this holds from a downgrade on. */
  lemma {:induction false} ReadTokenKeepsWritersOut(w: World, steps: seq<Step>, token: Token)
    requires Inv(w) && IsRun(w, steps) && token in w.reading
    requires forall i :: 0 <= i < |steps| ==> !Releases(steps[i], token)
    ensures token in After(w, steps).reading && After(w, steps).writing == None
    decreases |steps|
  {
    if steps == [] {
      assert |w.reading| > 0;
    } else {
      NextKeepsInv(w, steps[0]);
      forall i | 0 <= i < |steps[1..]| ensures !Releases(steps[1..][i], token) {
        assert steps[1..][i] == steps[i + 1];
      }
      assert !Releases(steps[0], token);
      ReadTokenKeepsWritersOut(Next(w, steps[0]), steps[1..], token);
    }
  }

  /** Downgrading admits no other writer: the former writer holds the lock for reading,
      and until it releases that, no run grants a write. */
  lemma DowngradeAdmitsNoWriter(w: World, token: Token, steps: seq<Step>)
    requires Inv(w) && Enabled(w, DowngradeOf(token)) && IsRun(Next(w, DowngradeOf(token)), steps)
    requires forall i :: 0 <= i < |steps| ==> !Releases(steps[i], token)
    ensures Next(w, DowngradeOf(token)).reading == {token}
    ensures token in After(Next(w, DowngradeOf(token)), steps).reading
    ensures After(Next(w, DowngradeOf(token)), steps).writing == None
  {
    NextKeepsInv(w, DowngradeOf(token));
    ReadTokenKeepsWritersOut(Next(w, DowngradeOf(token)), steps, token);
    assert |w.reading| == 0;
  }

  /** No lost wakeup: once the lock is free, every waiting thread is awake, and whichever
      checks first is granted. */
  lemma FreeLockWakesEveryone(w: World, t: Thread, token: Token)
    requires Inv(w) && w.reading == {} && w.writing == None
    requires t in w.threads && !w.threads[t].Outside? && FreshToken(w, token)
    ensures Enabled(w, Recheck(t, false, token))
    ensures Next(w, Recheck(t, false, token)).threads[t].Outside?
    ensures !FreshToken(Next(w, Recheck(t, false, token)), token)
  {
  }

  /** Readers are preferred: with no active writer a reader is admitted at once, whoever
      else is waiting. */
  lemma ReaderEntersPastWaitingWriters(w: World, t: Thread, token: Token)
    requires Inv(w) && w.writing == None && Enabled(w, Enter(t, READ, false, false, false, token))
    ensures token in Next(w, Enter(t, READ, false, false, false, token)).reading
  {
  }
}
