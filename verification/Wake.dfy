/** The in-process wake signal: one shared event, whose three operations are the event steps of the worker loop. */
module Wake {
  import opened WorkerLoop

  function Sleepers(s: State): set<nat> {
    set w | 0 <= w < |s.workers| && s.workers[w] == Blocked
  }

  class WakeEvent {
    var flag: bool
    var waiting: set<nat>

    constructor ()
      ensures !flag && waiting == {}
    {
      flag, waiting := false, {};
    }

    /** The event as the pool's state sees it. */
    ghost predicate Shows(s: State)
      reads this
    {
      flag == s.event && waiting == Sleepers(s)
    }

    /** Sets the flag and releases every waiter, including one that will find the flag cleared again when it runs. */
    method Set(ghost s: State)
      requires Shows(s)
      modifies this
      ensures flag && waiting == {}
      ensures Shows(Apply(s, Step.Wake))
    {
      flag, waiting := true, {};
    }

    method Clear(ghost s: State, w: nat)
      requires Shows(s) && Enabled(s, Step.Clear(w))
      modifies this`flag
      ensures !flag
      ensures Shows(Apply(s, Step.Clear(w)))
    {
      SleepersMove(s, w, PreClaim);
      flag := false;
    }

    /** True at once when the flag is set; otherwise the thread joins the waiters. */
    method Wait(ghost s: State, w: nat) returns (signalled: bool)
      requires Shows(s) && Enabled(s, Step.Wait(w))
      modifies this`waiting
      ensures signalled == flag
      ensures waiting == if signalled then old(waiting) else old(waiting) + {w}
      ensures Shows(Apply(s, Step.Wait(w)))
    {
      SleepersMove(s, w, if s.event then Top else Blocked);
      signalled := flag;
      if !flag {
        waiting := waiting + {w};
      }
    }

    method TimeOut(ghost s: State, w: nat)
      requires Shows(s) && Enabled(s, Step.Timeout(w))
      modifies this`waiting
      ensures waiting == old(waiting) - {w}
      ensures Shows(Apply(s, Step.Timeout(w)))
    {
      SleepersMove(s, w, Top);
      waiting := waiting - {w};
    }

    /**
      A whole wait during which nobody sets the event: true at once on a set flag, and otherwise
      false when the time is up, with the thread back at the top of its loop.
     */
    method WaitUndisturbed(ghost s: State, w: nat) returns (signalled: bool)
      requires Shows(s) && Enabled(s, Step.Wait(w))
      modifies this`waiting
      ensures signalled == flag && waiting == old(waiting)
      ensures var waited := Apply(s, Step.Wait(w));
        var after := if signalled then waited else Apply(waited, Step.Timeout(w));
        Shows(after) && after == Move(s, w, Top)
    {
      assert s.workers[w] == PreWait && w !in Sleepers(s);
      signalled := Wait(s, w);
      if !signalled {
        TimeOut(Apply(s, Step.Wait(w)), w);
        assert s.workers[w := Blocked][w := Top] == s.workers[w := Top];
      }
    }
  }

  /** One thread moving changes at most its own place among the sleepers. */
  lemma SleepersMove(s: State, w: nat, pc: Pc)
    requires w < |s.workers|
    ensures Sleepers(Move(s, w, pc)) == (Sleepers(s) - {w}) + if pc == Blocked then {w} else {}
  {
  }
}
