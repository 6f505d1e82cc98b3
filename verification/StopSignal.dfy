/** How soon a stop request is noticed by the threads of a pool that share one wake event. */
module StopSignal {
  import opened WorkerLoop

  /** After the stopper's wake nobody is asleep: no thread sits out a poll interval before it notices. */
  ghost predicate StopIsSeen(s: State) {
    s.stopWoken ==> forall w | 0 <= w < |s.workers| :: s.workers[w] != Blocked
  }

  /** Once stopped, a thread at the wait got there before, so each waits at most once more. */
  lemma NoNewWaitsAfterStop(s: State, step: Step, w: nat)
    requires s.stopped && Enabled(s, step) && w < |s.workers|
    requires s.workers[w] != PreWait && s.workers[w] != Blocked
    ensures var pc := Apply(s, step).workers[w]; pc != PreWait && pc != Blocked
    ensures Apply(s, step).stopped
  {
  }

  /** At the top of its loop, asleep, or gone. */
  predicate OutsideItsDrain(pc: Pc) {
    pc.Top? || pc.Blocked? || pc.Exited?
  }

  /** A thread that is outside its drain when the stop is set never claims again, over any continuation. */
  lemma {:induction false} NoNewClaimsAfterStop(s: State, steps: seq<Step>, w: nat)
    requires s.stopped && Runs(s, steps) && w < |s.workers| && OutsideItsDrain(s.workers[w])
    ensures |End(s, steps).workers| == |s.workers| && OutsideItsDrain(End(s, steps).workers[w])
    ensures forall k | 0 <= k < |steps| :: !(steps[k].Claim? && steps[k].w == w) && steps[k] != ClaimNone(w)
    decreases |steps|
  {
    if steps != [] {
      StaysOutside(s, steps[0], w);
      NoNewClaimsAfterStop(Apply(s, steps[0]), steps[1..], w);
      assert forall k | 0 < k < |steps| :: steps[k] == steps[1..][k - 1];
    }
  }

  lemma StaysOutside(s: State, step: Step, w: nat)
    requires s.stopped && Enabled(s, step) && w < |s.workers| && OutsideItsDrain(s.workers[w])
    ensures var t := Apply(s, step); t.stopped && |t.workers| == |s.workers| && OutsideItsDrain(t.workers[w])
    ensures !(step.Claim? && step.w == w) && step != ClaimNone(w)
  {
    hide Claimable;
  }

  ghost predicate LoneInv(s: State) {
    && |s.workers| <= 1
    && (s.stopWoken ==> s.stopped && forall w | 0 <= w < |s.workers| ::
          s.workers[w] != Blocked && (s.workers[w] == PreWait ==> s.event))
  }

  lemma {:induction false} LoneRun(s: State, steps: seq<Step>)
    requires LoneInv(s) && Runs(s, steps)
    ensures LoneInv(End(s, steps))
    decreases |steps|
  {
    if steps != [] {
      LoneStep(s, steps[0]);
      LoneRun(Apply(s, steps[0]), steps[1..]);
    }
  }

  lemma LoneStep(s: State, step: Step)
    requires LoneInv(s) && Enabled(s, step)
    ensures LoneInv(Apply(s, step))
  {
    hide Claimable;
  }

  // ---------------------------------------------------------------------------------------------
  // Two threads
  // ---------------------------------------------------------------------------------------------

  /** An idle pool whose first two threads stand at these points. */
  function Two(n: nat, a: Pc, b: Pc, event: bool, stopped: bool, stopWoken: bool): State
    requires n >= 2
  {
    State([a, b] + seq(n - 2, _ => Top), event, stopped, stopWoken, 0, map[], {}, {})
  }

  lemma FirstMoves(n: nat, a: Pc, to: Pc, b: Pc, event: bool, stopped: bool, stopWoken: bool)
    requires n >= 2
    ensures Move(Two(n, a, b, event, stopped, stopWoken), 0, to) == Two(n, to, b, event, stopped, stopWoken)
    ensures Move(Two(n, b, a, event, stopped, stopWoken), 1, to) == Two(n, b, to, event, stopped, stopWoken)
  {
  }

  /** Thread 0 has passed its last stop test and thread 1 is about to clear; thread 1 erases the stopper's wake. */
  const ERASED_STOP: seq<Step> := [Stop] + ([StopWake] + ([Clear(1)] + ([Wait(0)] + [])))

  lemma WakeIsErased(n: nat)
    requires n >= 2
    ensures Leads(Two(n, PreWait, PreClear, false, false, false), ERASED_STOP, Two(n, Blocked, PreClaim, false, true, true))
  {
    hide Leads, Move;
    var goal := Two(n, Blocked, PreClaim, false, true, true);
    LeadsNowhere(goal);
    FirstMoves(n, PreWait, Blocked, PreClaim, false, true, true);
    Prepend(Two(n, PreWait, PreClaim, false, true, true), Wait(0), goal, [], goal);
    FirstMoves(n, PreClear, PreClaim, PreWait, true, true, true);
    Prepend(Two(n, PreWait, PreClear, true, true, true), Clear(1), Two(n, PreWait, PreClaim, false, true, true), [Wait(0)] + [], goal);
    var waiting := Two(n, PreWait, PreClear, false, true, false);
    assert Notified(waiting.workers) == waiting.workers && ClaimableJobs(waiting) == {};
    Prepend(waiting, StopWake, Two(n, PreWait, PreClear, true, true, true), [Clear(1)] + ([Wait(0)] + []), goal);
    Prepend(Two(n, PreWait, PreClear, false, false, false), Stop, waiting, [StopWake] + ([Clear(1)] + ([Wait(0)] + [])), goal);
  }

  const TO_THE_BRINK: seq<Step> :=
    [Check(1)] + ([Check(0)] + ([Clear(0)] + ([ClaimNone(0)] + ([Reap(0, false)] + ([StopTest(0)] + ERASED_STOP)))))

  lemma ReachesTheBrink(n: nat, goal: State)
    requires n >= 2 && Leads(Two(n, PreWait, PreClear, false, false, false), ERASED_STOP, goal)
    ensures Leads(Boot(n), TO_THE_BRINK, goal)
  {
    hide Leads, Move, ERASED_STOP;
    FirstMoves(n, StopCheck, PreWait, PreClear, false, false, false);
    var rest := [StopTest(0)] + ERASED_STOP;
    Prepend(Two(n, StopCheck, PreClear, false, false, false), StopTest(0), Two(n, PreWait, PreClear, false, false, false),
            ERASED_STOP, goal);
    FirstMoves(n, PreReap, StopCheck, PreClear, false, false, false);
    Prepend(Two(n, PreReap, PreClear, false, false, false), Reap(0, false), Two(n, StopCheck, PreClear, false, false, false),
            rest, goal);
    ComesToTheClaim(n, [Reap(0, false)] + rest, goal);
  }

  lemma ComesToTheClaim(n: nat, rest: seq<Step>, goal: State)
    requires n >= 2 && Leads(Two(n, PreReap, PreClear, false, false, false), rest, goal)
    ensures Leads(Boot(n), [Check(1)] + ([Check(0)] + ([Clear(0)] + ([ClaimNone(0)] + rest))), goal)
  {
    hide Leads, Move;
    FirstMoves(n, PreClaim, PreReap, PreClear, false, false, false);
    assert ClaimableJobs(Two(n, PreClaim, PreClear, false, false, false)) == {};
    Prepend(Two(n, PreClaim, PreClear, false, false, false), ClaimNone(0), Two(n, PreReap, PreClear, false, false, false), rest, goal);
    FirstMoves(n, PreClear, PreClaim, PreClear, false, false, false);
    var two := [ClaimNone(0)] + rest;
    Prepend(Two(n, PreClear, PreClear, false, false, false), Clear(0), Two(n, PreClaim, PreClear, false, false, false), two, goal);
    FirstMoves(n, Top, PreClear, PreClear, false, false, false);
    Prepend(Two(n, Top, PreClear, false, false, false), Check(0), Two(n, PreClear, PreClear, false, false, false),
            [Clear(0)] + two, goal);
    FirstMoves(n, Top, PreClear, Top, false, false, false);
    assert Boot(n) == Two(n, Top, Top, false, false, false);
    Prepend(Boot(n), Check(1), Two(n, Top, PreClear, false, false, false), [Check(0)] + ([Clear(0)] + two), goal);
  }

  ghost predicate StopAlwaysSeen(n: nat) {
    forall steps: seq<Step> :: Runs(Boot(n), steps) ==> StopIsSeen(End(Boot(n), steps))
  }

  /**
    A stop request is noticed without sleeping out a poll interval in every run exactly when the
    pool has at most one thread: with two, one thread's clear can erase the other's wake.
   */
  lemma StopSeenExactly(n: nat)
    ensures StopAlwaysSeen(n) <==> n <= 1
  {
    if n <= 1 {
      forall steps: seq<Step> | Runs(Boot(n), steps) ensures StopIsSeen(End(Boot(n), steps)) {
        LoneRun(Boot(n), steps);
      }
    } else {
      WakeIsErased(n);
      var goal := Two(n, Blocked, PreClaim, false, true, true);
      ReachesTheBrink(n, goal);
      assert goal.workers[0] == Blocked;
      assert !StopIsSeen(End(Boot(n), TO_THE_BRINK));
    }
  }
}
