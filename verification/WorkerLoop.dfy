/**
  The worker loop and its wake signal as interleaved atomic steps: any number of threads share one
  event, producers commit and then wake, and a stopper sets the stop flag and wakes.
*/
module WorkerLoop {
  import opened Prelude

  type JobId = nat

  datatype JobState = Pending(availableAt: nat) | Leased(owner: nat, until: nat) | Finished

  datatype Job = Job(state: JobState, attempts: nat, maxAttempts: nat)

  /** Where a thread stands between two atomic steps. */
  datatype Pc = Top | PreClear | PreClaim | Working(job: JobId) | PreReap | StopCheck | PreWait | Blocked | Exited

  /**
    `signalled` and `woken` record history only. A job is signalled while it has been claimable
    ever since some wake; it is woken once a wake followed its commit, claimable or not.
   */
  datatype State = State(
    workers: seq<Pc>,
    event: bool,
    stopped: bool,
    stopWoken: bool,
    now: nat,
    jobs: map<JobId, Job>,
    signalled: set<JobId>,
    woken: set<JobId>)

  /** The claim query's row condition: attempts left, and due or with a lapsed lease. */
  predicate Claimable(j: Job, now: nat) {
    && j.attempts < j.maxAttempts
    && match j.state
       case Pending(at) => at <= now
       case Leased(_, until) => until < now
       case Finished => false
  }

  function ClaimableJobs(s: State): set<JobId> {
    set j | j in s.jobs && Claimable(s.jobs[j], s.now)
  }

  datatype Settlement = Done | Retry(delay: nat) | Fenced

  datatype Step =
    | Check(w: nat)
    | Clear(w: nat)
    | Claim(w: nat, job: JobId, until: nat)
    | ClaimNone(w: nat)
    | Settle(w: nat, how: Settlement)
    | Reap(w: nat, found: bool)
    | StopTest(w: nat)
    | Wait(w: nat)
    | Timeout(w: nat)
    | Raise(w: nat)
    | Commit(job: JobId, availableAt: nat, maxAttempts: nat)
    | Wake
    | Release(job: JobId)
    | Stop
    | StopWake
    | Tick

  predicate At(s: State, w: nat, pc: Pc) {
    w < |s.workers| && s.workers[w] == pc
  }

  predicate Enabled(s: State, step: Step) {
    match step
    case Check(w) => At(s, w, Top)
    case Clear(w) => At(s, w, PreClear)
    case Claim(w, j, until) => At(s, w, PreClaim) && j in s.jobs && Claimable(s.jobs[j], s.now) && s.now < until
    case ClaimNone(w) => At(s, w, PreClaim) && ClaimableJobs(s) == {}
    case Settle(w, how) =>
      // Only the row's current owner can change it; anyone else is fenced out.
      && w < |s.workers| && s.workers[w].Working? && s.workers[w].job in s.jobs
      && (how.Fenced? || (s.jobs[s.workers[w].job].state.Leased? && s.jobs[s.workers[w].job].state.owner == w))
    case Reap(w, _) => At(s, w, PreReap)
    case StopTest(w) => At(s, w, StopCheck)
    case Wait(w) => At(s, w, PreWait)
    case Timeout(w) => At(s, w, Blocked)
    case Raise(w) => w < |s.workers| && s.workers[w] !in {Top, Blocked, Exited}
    case Commit(j, _, maxAttempts) => j !in s.jobs && maxAttempts > 0
    case Wake => true
    case Release(j) => j in s.jobs && s.jobs[j].state.Leased?
    case Stop => true
    case StopWake => s.stopped
    case Tick => true
  }

  function Move(s: State, w: nat, pc: Pc): State
    requires w < |s.workers|
  {
    s.(workers := s.workers[w := pc])
  }

  /** A row changed hands: what was said about it before no longer counts. */
  function Forget(s: State, j: JobId): State {
    s.(signalled := s.signalled - {j}, woken := s.woken - {j})
  }

  /** Setting the event notifies every thread blocked on it. */
  function Notified(workers: seq<Pc>): (r: seq<Pc>)
    ensures |r| == |workers|
    ensures forall w | 0 <= w < |workers| :: r[w] == if workers[w] == Blocked then Top else workers[w]
  {
    seq(|workers|, w requires 0 <= w < |workers| => if workers[w] == Blocked then Top else workers[w])
  }

  function Woken(s: State): State {
    s.(event := true, workers := Notified(s.workers), signalled := s.signalled + ClaimableJobs(s), woken := s.woken + s.jobs.Keys)
  }

  function Apply(s: State, step: Step): State
    requires Enabled(s, step)
  {
    match step
    case Check(w) => Move(s, w, if s.stopped then Exited else PreClear)
    case Clear(w) => Move(s, w, PreClaim).(event := false)
    case Claim(w, j, until) =>
      var taken := s.jobs[j].(state := Leased(w, until), attempts := s.jobs[j].attempts + 1);
      Forget(Move(s, w, Working(j)), j).(jobs := s.jobs[j := taken])
    case ClaimNone(w) => Move(s, w, PreReap)
    case Settle(w, how) =>
      var j := s.workers[w].job;
      match how {
        case Fenced => Move(s, w, Top)
        case Done => Forget(Move(s, w, Top), j).(jobs := s.jobs[j := s.jobs[j].(state := Finished)])
        case Retry(delay) => Forget(Move(s, w, Top), j).(jobs := s.jobs[j := s.jobs[j].(state := Pending(s.now + delay))])
      }
    case Reap(w, found) => Move(s, w, if found then Top else StopCheck)
    case StopTest(w) => Move(s, w, if s.stopped then Exited else PreWait)
    case Wait(w) => Move(s, w, if s.event then Top else Blocked)
    case Timeout(w) => Move(s, w, Top)
    case Raise(w) => Move(s, w, Top)
    case Commit(j, at, maxAttempts) => s.(jobs := s.jobs[j := Job(Pending(at), 0, maxAttempts)])
    case Wake => Woken(s)
    case Release(j) => Forget(s, j).(jobs := s.jobs[j := s.jobs[j].(state := Pending(s.now))])
    case Stop => s.(stopped := true)
    case StopWake => Woken(s).(stopWoken := true)
    case Tick => s.(now := s.now + 1)
  }

  // ---------------------------------------------------------------------------------------------
  // Runs
  // ---------------------------------------------------------------------------------------------

  function Boot(n: nat): State {
    State(seq(n, _ => Top), false, false, false, 0, map[], {}, {})
  }

  predicate Runs(s: State, steps: seq<Step>)
    decreases |steps|
  {
    steps == [] || (Enabled(s, steps[0]) && Runs(Apply(s, steps[0]), steps[1..]))
  }

  function End(s: State, steps: seq<Step>): State
    requires Runs(s, steps)
    decreases |steps|
  {
    if steps == [] then s else End(Apply(s, steps[0]), steps[1..])
  }

  // ---------------------------------------------------------------------------------------------
  // No lost wakeup
  // ---------------------------------------------------------------------------------------------

  /** The thread will run the claim query before it can block. */
  predicate WillDrain(pc: Pc) {
    pc.Top? || pc.PreClear? || pc.PreClaim? || pc.Working?
  }

  ghost predicate SomeoneWillDrain(s: State) {
    exists w :: 0 <= w < |s.workers| && WillDrain(s.workers[w])
  }

  ghost predicate NoLostWakeup(s: State) {
    s.stopped || s.signalled == {} || s.event || SomeoneWillDrain(s)
  }

  ghost predicate Inv(s: State) {
    && s.signalled <= ClaimableJobs(s)
    && NoLostWakeup(s)
    && SetMeansAwake(s)
  }

  /** Nobody sleeps on an event that is set. */
  ghost predicate SetMeansAwake(s: State) {
    s.event ==> forall w | 0 <= w < |s.workers| :: s.workers[w] != Blocked
  }

  lemma SetStaysAwake(s: State, step: Step)
    requires SetMeansAwake(s) && Enabled(s, step)
    ensures SetMeansAwake(Apply(s, step))
  {
    hide Claimable;
  }

  lemma SignalledStayClaimable(s: State, step: Step)
    requires s.signalled <= ClaimableJobs(s) && Enabled(s, step)
    ensures Apply(s, step).signalled <= ClaimableJobs(Apply(s, step))
  {
    var t := Apply(s, step);
    forall j | j in t.signalled ensures j in t.jobs && Claimable(t.jobs[j], t.now) {
      if j !in s.signalled {
        assert j in ClaimableJobs(s);
      } else {
        assert j in ClaimableJobs(s);
      }
    }
  }

  lemma InvStep(s: State, step: Step)
    requires Inv(s) && Enabled(s, step)
    ensures Inv(Apply(s, step))
  {
    hide Claimable, SetMeansAwake;
    SignalledStayClaimable(s, step);
    SetStaysAwake(s, step);
    var t := Apply(s, step);
    match step
    case ClaimNone(w) => assert t.signalled == {};
    case Commit(_, _, _) => assert SomeoneWillDrain(s) ==> SomeoneWillDrain(t);
    case Release(_) => assert SomeoneWillDrain(s) ==> SomeoneWillDrain(t);
    case Tick => assert SomeoneWillDrain(s) ==> SomeoneWillDrain(t);
    case Wake =>
    case Stop =>
    case StopWake =>
    case _ =>
      forall w | 0 <= w < |s.workers| && w != step.w && WillDrain(s.workers[w]) ensures SomeoneWillDrain(t) {
        assert WillDrain(t.workers[w]);
      }
      if WillDrain(t.workers[step.w]) {
        assert SomeoneWillDrain(t);
      }
  }

  lemma {:induction false} EveryRunKeepsInv(s: State, steps: seq<Step>)
    requires Inv(s) && Runs(s, steps)
    ensures Inv(End(s, steps))
    decreases |steps|
  {
    if steps != [] {
      InvStep(s, steps[0]);
      EveryRunKeepsInv(Apply(s, steps[0]), steps[1..]);
    }
  }

  lemma BootInv(n: nat)
    ensures Inv(Boot(n))
  {
  }

  /**
    For any number of workers and any run: while nobody has asked for a stop, a job claimable ever
    since some wake means the event is set or some worker claims again before it can block.
   */
  lemma NoWakeupIsLost(n: nat, steps: seq<Step>)
    requires Runs(Boot(n), steps)
    ensures NoLostWakeup(End(Boot(n), steps))
  {
    BootInv(n);
    EveryRunKeepsInv(Boot(n), steps);
  }

  /** So a pool that is wholly asleep has no signalled job waiting. */
  lemma AsleepMeansNothingSignalled(n: nat, steps: seq<Step>)
    requires n > 0 && Runs(Boot(n), steps) && !End(Boot(n), steps).stopped
    requires forall w | 0 <= w < |End(Boot(n), steps).workers| :: End(Boot(n), steps).workers[w] == Blocked
    ensures End(Boot(n), steps).signalled == {}
  {
    BootInv(n);
    EveryRunKeepsInv(Boot(n), steps);
    SameWorkers(Boot(n), steps);
    var s := End(Boot(n), steps);
    assert s.workers[0] == Blocked;
  }

  lemma {:induction false} SameWorkers(s: State, steps: seq<Step>)
    requires Runs(s, steps)
    ensures |End(s, steps).workers| == |s.workers|
    decreases |steps|
  {
    if steps != [] {
      SameWorkers(Apply(s, steps[0]), steps[1..]);
    }
  }

  /** Attempts are left, and the job is due, or leased by someone whose lease has lapsed. */
  ghost predicate WaitsForAWorker(j: Job, now: nat) {
    && j.attempts < j.maxAttempts
    && ((j.state.Pending? && j.state.availableAt <= now) || (j.state.Leased? && j.state.until < now))
  }

  /**
    A promise to drain is kept: an unstopped worker gives it up only by a claim that found nothing at
    all, when no job waits for a worker; and what a claim takes is a job that did.
   */
  lemma DrainPromiseIsKept(s: State, step: Step, w: nat)
    requires Inv(s) && Enabled(s, step) && !s.stopped
    requires w < |s.workers| && WillDrain(s.workers[w]) && !WillDrain(Apply(s, step).workers[w])
    ensures step == ClaimNone(w) && s.signalled == {} && forall j <- s.jobs :: !WaitsForAWorker(s.jobs[j], s.now)
  {
    NothingWaits(s);
  }

  lemma NothingWaits(s: State)
    ensures ClaimableJobs(s) == {} <==> forall j <- s.jobs :: !WaitsForAWorker(s.jobs[j], s.now)
  {
    forall j <- s.jobs ensures j in ClaimableJobs(s) <==> WaitsForAWorker(s.jobs[j], s.now) {
    }
  }

  /** A worker at its claim is never held up by its own view of the queue: it can take any job that waits, and only such a job. */
  lemma ClaimsWhatWaits(s: State, w: nat, j: JobId, until: nat)
    requires At(s, w, PreClaim) && j in s.jobs && s.now < until
    ensures Enabled(s, Claim(w, j, until)) <==> WaitsForAWorker(s.jobs[j], s.now)
    ensures Enabled(s, ClaimNone(w)) ==> !Enabled(s, Claim(w, j, until))
  {
    NothingWaits(s);
  }

  /** A thread moves towards the wait only past a claim and a reap that found nothing; after a reap that found something it drains again. */
  lemma WaitsOnlyWhenIdle(s: State, step: Step, w: nat)
    requires Enabled(s, step) && w < |s.workers| && s.workers[w] != Apply(s, step).workers[w]
    ensures match Apply(s, step).workers[w]
      case PreReap => step == ClaimNone(w)
      case StopCheck => step == Reap(w, false)
      case PreWait => step == StopTest(w) && !s.stopped
      case Blocked => step == Wait(w) && !s.event
      case Exited => s.stopped && (step == Check(w) || step == StopTest(w))
      case _ => true
  {
    hide ClaimableJobs, Claimable;
    match step
    case Wake =>
    case StopWake =>
    case _ =>
  }

  lemma ReapedWorkIsFollowedUp(s: State, w: nat)
    requires Enabled(s, Reap(w, true))
    ensures SomeoneWillDrain(Apply(s, Reap(w, true)))
  {
    assert WillDrain(Apply(s, Reap(w, true)).workers[w]);
  }

  // ---------------------------------------------------------------------------------------------
  // Delayed jobs
  // ---------------------------------------------------------------------------------------------

  /** Every commit in the run makes its job due at most d ticks later. */
  predicate DelayedAtMost(s: State, steps: seq<Step>, d: nat)
    requires Runs(s, steps)
    decreases |steps|
  {
    steps == [] ||
    ((steps[0].Commit? ==> steps[0].availableAt <= s.now + d) && DelayedAtMost(Apply(s, steps[0]), steps[1..], d))
  }

  /** A due job nobody has claimed, whose producer has woken the pool, has someone coming for it. */
  ghost predicate FreshJobsCovered(s: State) {
    s.stopped || s.event || SomeoneWillDrain(s) ||
    forall j | j in s.woken && j in s.jobs && s.jobs[j].attempts == 0 :: !Claimable(s.jobs[j], s.now)
  }

  /** With no delays, a woken first-attempt job is a signalled one. */
  ghost predicate PromptInv(s: State) {
    && Inv(s)
    && FreshAreDue(s)
    && (forall j | j in s.woken :: j in s.jobs && (s.jobs[j].attempts == 0 ==> j in s.signalled))
  }

  ghost predicate FreshAreDue(s: State) {
    && (forall j | j in s.jobs && s.jobs[j].attempts == 0 :: Claimable(s.jobs[j], s.now) && s.jobs[j].state.Pending?)
    && WorkIsClaimed(s)
  }

  ghost predicate WorkIsClaimed(s: State) {
    (forall w | 0 <= w < |s.workers| && s.workers[w].Working? ::
          s.workers[w].job in s.jobs && s.jobs[s.workers[w].job].attempts > 0)
  }

  lemma FreshStayDue(s: State, step: Step)
    requires FreshAreDue(s) && Enabled(s, step) && (step.Commit? ==> step.availableAt <= s.now)
    ensures FreshAreDue(Apply(s, step))
  {
    WorkStaysClaimed(s, step);
    hide WorkIsClaimed;
  }

  lemma WorkStaysClaimed(s: State, step: Step)
    requires WorkIsClaimed(s) && Enabled(s, step)
    ensures WorkIsClaimed(Apply(s, step))
    ensures step.Settle? ==> s.jobs[s.workers[step.w].job].attempts > 0
  {
    hide Claimable;
  }

  lemma PromptStep(s: State, step: Step)
    requires PromptInv(s) && Enabled(s, step) && (step.Commit? ==> step.availableAt <= s.now)
    ensures PromptInv(Apply(s, step))
  {
    hide Inv;
    InvStep(s, step);
    FreshStayDue(s, step);
  }

  lemma {:induction false} PromptRun(s: State, steps: seq<Step>)
    requires PromptInv(s) && Runs(s, steps) && DelayedAtMost(s, steps, 0)
    ensures PromptInv(End(s, steps))
    decreases |steps|
  {
    if steps != [] {
      PromptStep(s, steps[0]);
      PromptRun(Apply(s, steps[0]), steps[1..]);
    }
  }

  ghost predicate AlwaysCovered(d: nat) {
    forall n: nat, steps: seq<Step> ::
      Runs(Boot(n), steps) && DelayedAtMost(Boot(n), steps, d) ==> FreshJobsCovered(End(Boot(n), steps))
  }

  /** From an empty claim to sleep, and the tick that makes the job due. */
  const FALL_ASLEEP: seq<Step> := [ClaimNone(0), Reap(0, false), StopTest(0), Wait(0), Tick]

  /** A job due one tick later: the wake is spent on an empty claim, and the worker is asleep when the job falls due. */
  const SPENT_WAKE: seq<Step> := [Commit(0, 1, 3), Wake, Check(0), Clear(0)] + FALL_ASLEEP

  /** One worker, and one job due a tick later whose producer has woken the pool. */
  function OneLateJob(pc: Pc, event: bool, now: nat): State {
    State([pc], event, false, false, now, map[0 := Job(Pending(1), 0, 3)], {}, {0})
  }

  const ASLEEP := OneLateJob(Blocked, false, 1)

  /** From this state the rest of the steps, taken one after another, lead to the goal. */
  ghost predicate Leads(s: State, steps: seq<Step>, goal: State) {
    Runs(s, steps) && DelayedAtMost(s, steps, 1) && End(s, steps) == goal
  }

  lemma Prepend(s: State, step: Step, t: State, steps: seq<Step>, goal: State)
    requires Enabled(s, step) && (step.Commit? ==> step.availableAt <= s.now + 1) && Apply(s, step) == t && Leads(t, steps, goal)
    ensures Leads(s, [step] + steps, goal)
  {
    assert ([step] + steps)[1..] == steps;
  }

  /** One thread of one worker moving on leaves everything else of the state alone. */
  lemma OneMove(from: Pc, to: Pc, event: bool)
    ensures Move(OneLateJob(from, event, 0), 0, to) == OneLateJob(to, event, 0)
  {
    assert [from][0 := to] == [to];
  }

  lemma FallsAsleep()
    ensures Leads(OneLateJob(PreClaim, false, 0), FALL_ASLEEP, ASLEEP)
  {
    hide Leads, Move;
    LeadsNowhere(ASLEEP);
    Prepend(OneLateJob(Blocked, false, 0), Tick, ASLEEP, [], ASLEEP);
    OneMove(PreWait, Blocked, false);
    Prepend(OneLateJob(PreWait, false, 0), Wait(0), OneLateJob(Blocked, false, 0), [Tick] + [], ASLEEP);
    OneMove(StopCheck, PreWait, false);
    Prepend(OneLateJob(StopCheck, false, 0), StopTest(0), OneLateJob(PreWait, false, 0), [Wait(0)] + ([Tick] + []), ASLEEP);
    ClaimsNothing([StopTest(0)] + ([Wait(0)] + ([Tick] + [])));
    assert [ClaimNone(0)] + ([Reap(0, false)] + ([StopTest(0)] + ([Wait(0)] + ([Tick] + [])))) == FALL_ASLEEP;
  }

  lemma ClaimsNothing(rest: seq<Step>)
    requires Leads(OneLateJob(StopCheck, false, 0), rest, ASLEEP)
    ensures Leads(OneLateJob(PreClaim, false, 0), [ClaimNone(0)] + ([Reap(0, false)] + rest), ASLEEP)
  {
    hide Leads, Move;
    OneMove(PreReap, StopCheck, false);
    Prepend(OneLateJob(PreReap, false, 0), Reap(0, false), OneLateJob(StopCheck, false, 0), rest, ASLEEP);
    OneMove(PreClaim, PreReap, false);
    assert ClaimableJobs(OneLateJob(PreClaim, false, 0)) == {};
    Prepend(OneLateJob(PreClaim, false, 0), ClaimNone(0), OneLateJob(PreReap, false, 0), [Reap(0, false)] + rest, ASLEEP);
  }

  lemma SpentWakeRuns()
    ensures Leads(Boot(1), SPENT_WAKE, ASLEEP)
  {
    hide Leads, Move;
    FallsAsleep();
    OneMove(PreClear, PreClaim, true);
    Prepend(OneLateJob(PreClear, true, 0), Clear(0), OneLateJob(PreClaim, false, 0), FALL_ASLEEP, ASLEEP);
    OneMove(Top, PreClear, true);
    var rest := [Clear(0)] + FALL_ASLEEP;
    Prepend(OneLateJob(Top, true, 0), Check(0), OneLateJob(PreClear, true, 0), rest, ASLEEP);
    CommitAndWake([Check(0)] + rest);
    assert [Commit(0, 1, 3)] + ([Wake] + ([Check(0)] + rest)) == SPENT_WAKE;
  }

  lemma CommitAndWake(rest: seq<Step>)
    requires Leads(OneLateJob(Top, true, 0), rest, ASLEEP)
    ensures Leads(Boot(1), [Commit(0, 1, 3)] + ([Wake] + rest), ASLEEP)
  {
    hide Leads;
    var queued := OneLateJob(Top, false, 0).(woken := {});
    assert Notified([Top]) == [Top] && ClaimableJobs(queued) == {};
    Prepend(queued, Wake, OneLateJob(Top, true, 0), rest, ASLEEP);
    assert Boot(1).workers == [Top];
    Prepend(Boot(1), Commit(0, 1, 3), queued, [Wake] + rest, ASLEEP);
  }

  lemma LeadsNowhere(s: State)
    ensures Leads(s, [], s)
  {
  }

  /**
    The guarantee as stated for first attempts holds for jobs that are due when their producer
    wakes the pool and for no longer delay: a later one waits for the poll.
   */
  lemma CoveredExactlyWhenPrompt(d: nat)
    ensures AlwaysCovered(d) <==> d == 0
  {
    if d == 0 {
      forall n: nat, steps: seq<Step> | Runs(Boot(n), steps) && DelayedAtMost(Boot(n), steps, 0)
        ensures FreshJobsCovered(End(Boot(n), steps))
      {
        BootInv(n);
        PromptRun(Boot(n), steps);
      }
    } else {
      SpentWakeRuns();
      MoreDelayAllowed(Boot(1), SPENT_WAKE, 1, d);
      assert !FreshJobsCovered(ASLEEP) by {
        assert 0 in ASLEEP.woken;
      }
    }
  }

  lemma {:induction false} MoreDelayAllowed(s: State, steps: seq<Step>, a: nat, b: nat)
    requires a <= b && Runs(s, steps) && DelayedAtMost(s, steps, a)
    ensures DelayedAtMost(s, steps, b)
    decreases |steps|
  {
    if steps != [] {
      MoreDelayAllowed(Apply(s, steps[0]), steps[1..], a, b);
    }
  }
}
