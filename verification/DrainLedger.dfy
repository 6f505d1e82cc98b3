/** The process's own lease bookkeeping, updated in place, and one drain as a thread performs it. */
module DrainLedger {
  import opened Prelude
  import opened Settlement
  import D = Drain

  datatype ClaimReply = Leased(id: D.JobId, job: Claimed) | NoneDue | ClaimRaised

  /** What settling came to: an answer, or an exception on its way out of the drain. */
  datatype SettleReply = Answered(outcome: Outcome) | SettleRaised

  /** What one drain reports; only `Empty` is falsy, so only it lets the worker wait. */
  datatype Report = Empty | Settled(outcome: Outcome) | Reaped | Raised

  class Ledger {
    var held: set<Token>
    var inFlight: int

    constructor ()
      ensures held == {} && inFlight == 0
    {
      held, inFlight := {}, 0;
    }

    /** The ledger as the interleaved system sees it. */
    ghost predicate Shows(s: D.State)
      reads this
    {
      held == s.held && inFlight == s.inFlight
    }

    /** The critical section before the claim query. */
    method BeginClaim(ghost s: D.State, i: nat)
      requires Shows(s) && D.Enabled(s, D.Enter(i))
      modifies this`inFlight
      ensures inFlight == old(inFlight) + 1
      ensures Shows(D.Apply(s, D.Enter(i)))
    {
      inFlight := inFlight + 1;
    }

    /** The critical section after it: the token is recorded and the window closed in one breath. */
    method EndClaim(ghost s: D.State, i: nat, token: Option<Token>)
      requires Shows(s) && i < |s.threads|
      requires if token.Some? then s.threads[i].Granted? && s.threads[i].job.token == token.value else s.threads[i].NoJob?
      modifies this
      ensures held == old(held) + (if token.Some? then {token.value} else {}) && inFlight == old(inFlight) - 1
      ensures Shows(D.Apply(s, if token.Some? then D.Record(i) else D.Leave(i)))
    {
      if token.Some? {
        held := held + {token.value};
      }
      inFlight := inFlight - 1;
    }

    /** The drain's last act: the token is dropped only once its lease is settled. */
    method Finish(ghost s: D.State, i: nat, job: Claimed, settled: bool)
      requires Shows(s) && D.Enabled(s, D.Finish(i)) && s.threads[i] == D.Finishing(job, settled)
      modifies this`held
      ensures held == if settled then old(held) - {job.token} else old(held)
      ensures Shows(D.Apply(s, D.Finish(i)))
    {
      if settled {
        held := held - {job.token};
      }
    }

    /** One look at the ledger by a shutdown: an answer when no claim is in flight, or when time is up. */
    method Snapshot(ghost s: D.State, timeUp: bool) returns (tokens: Option<set<Token>>)
      requires Shows(s) && D.Inv(s)
      ensures tokens.Some? <==> inFlight == 0 || timeUp
      ensures tokens.Some? && !timeUp ==> forall t | D.Outstanding(s, t) :: t in tokens.value || t in s.abandoned
      ensures tokens.Some? ==> tokens.value == held
    {
      if inFlight == 0 {
        forall t | D.Outstanding(s, t) ensures t in held || t in s.abandoned {
          D.SnapshotMissesOnlyAbandoned(s, t);
        }
        return Some(held);
      }
      if timeUp {
        return Some(held);
      }
      return None;
    }

    /**
      One drain by thread i while every other thread stands still: the claim, the settlement, and the
      bookkeeping around them are exactly the steps of the interleaved system. The token stays when
      settling raised or did not settle the lease, and the counter returns to where it was.
     */
    method DrainOnce(ghost s: D.State, i: nat, claim: ClaimReply, ghost settle: SettleChoice, answer: Option<Outcome>, reaped: bool)
      returns (report: Report)
      requires Shows(s) && D.Inv(s) && CanDrain(s, i, claim, settle)
      requires claim.Leased? ==> answer == AnswerTo(s, claim, settle)
      modifies this
      ensures Shows(Drained(s, i, claim, settle)) && D.Inv(Drained(s, i, claim, settle))
      ensures inFlight == old(inFlight)
      ensures held == match claim
                      case Leased(_, job) =>
                        if answer.Some? && LeaseIsSettled(job.kind, answer.value) then old(held) - {job.token}
                        else old(held) + {job.token}
                      case _ => old(held)
      ensures report == match claim
                        case Leased(_, _) => if answer.Some? then Settled(answer.value) else Raised
                        case NoneDue => if reaped then Reaped else Empty
                        case ClaimRaised => Raised
    {
      hide D.Inv, D.CanClaim, D.Apply, D.Enabled, SettlePipeline, SettleSendRow, LeaseIsSettled;
      DrainedSteps(s, i, claim, settle);
      ghost var entered := D.Apply(s, D.Enter(i));
      BeginClaim(s, i);
      if !claim.Leased? {
        EndClaim(D.Apply(entered, D.Refuse(i)), i, None);
        return if claim.ClaimRaised? then Raised else if reaped then Reaped else Empty;
      }
      ghost var granted := D.Apply(entered, D.Grant(i, claim.id, claim.job.token));
      EndClaim(granted, i, Some(claim.job.token));
      ghost var running := D.Apply(granted, D.Record(i));
      ghost var finishing := D.Apply(running, SettleStep(i, settle));
      var leaseSettled := answer.Some? && LeaseIsSettled(claim.job.kind, answer.value);
      Finish(finishing, i, claim.job, leaseSettled);
      report := if answer.Some? then Settled(answer.value) else Raised;
    }
  }

  /** How the settlement of this drain comes out: by the coordinator's tree, or with an exception. */
  datatype SettleChoice = ByVerdict(verdict: Verdict, extracting: bool) | BySend(how: Outcome) | Raises(landed: bool)

  function SettleStep(i: nat, settle: SettleChoice): D.Step {
    match settle
    case ByVerdict(verdict, extracting) => D.Settle(i, verdict, extracting)
    case BySend(how) => D.SettleSend(i, how)
    case Raises(landed) => D.SettleFails(i, landed)
  }

  /** The claim can be granted as the reply says, and the job's kind fits the settlement. */
  predicate CanDrain(s: D.State, i: nat, claim: ClaimReply, settle: SettleChoice) {
    && i < |s.threads| && s.threads[i].Idle?
    && (claim.Leased? ==>
          && D.CanClaim(s, claim.id) && claim.job.token !in s.used
          && claim.job == D.ClaimedFrom(s.rows[claim.id], claim.job.token)
          && match settle
             case ByVerdict(_, _) => claim.job.kind != SendOutbound
             case BySend(how) => claim.job.kind == SendOutbound && (how == Done || how == Retried || how == InvalidContext)
             case Raises(_) => true)
  }

  /** The coordinator's answer about the row as the claim left it; none when it raises. */
  function AnswerTo(s: D.State, claim: ClaimReply, settle: SettleChoice): Option<Outcome>
    requires claim.Leased? && claim.id in s.rows
    requires settle.BySend? ==> settle.how == Done || settle.how == Retried || settle.how == InvalidContext
  {
    var row := s.rows[claim.id].(lease := Some(claim.job.token), attempts := s.rows[claim.id].attempts + 1);
    match settle
    case ByVerdict(verdict, extracting) => Some(SettlePipeline(row, claim.job, verdict, extracting).1)
    case BySend(how) => Some(SettleSendRow(row, claim.job, how).1)
    case Raises(_) => None
  }

  /** The interleaved system after the drain's own steps. */
  ghost function Drained(s: D.State, i: nat, claim: ClaimReply, settle: SettleChoice): D.State
    requires CanDrain(s, i, claim, settle)
  {
    var entered := D.Apply(s, D.Enter(i));
    if !claim.Leased? then D.Apply(D.Apply(entered, D.Refuse(i)), D.Leave(i))
    else
      var granted := D.Apply(entered, D.Grant(i, claim.id, claim.job.token));
      var running := D.Apply(granted, D.Record(i));
      var finishing := D.Apply(running, SettleStep(i, settle));
      D.Apply(finishing, D.Finish(i))
  }

  /** The counter and the tokens as they were, the thread somewhere else. */
  predicate SameLedger(s: D.State, t: D.State) {
    s.held == t.held && s.inFlight == t.inFlight && |s.threads| == |t.threads|
  }

  /** Along those steps the ledger changes only where the claim begins and ends, and where the drain finishes. */
  lemma DrainedSteps(s: D.State, i: nat, claim: ClaimReply, settle: SettleChoice)
    requires D.Inv(s) && CanDrain(s, i, claim, settle)
    ensures D.Inv(Drained(s, i, claim, settle)) && D.Enabled(s, D.Enter(i))
    ensures var entered := D.Apply(s, D.Enter(i));
      && entered.held == s.held
      && if !claim.Leased? then
           && D.Enabled(entered, D.Refuse(i))
           && var refused := D.Apply(entered, D.Refuse(i));
              SameLedger(entered, refused) && i < |refused.threads| && refused.threads[i].NoJob? && D.Enabled(refused, D.Leave(i))
         else
           && D.Enabled(entered, D.Grant(i, claim.id, claim.job.token))
           && var granted := D.Apply(entered, D.Grant(i, claim.id, claim.job.token));
           && SameLedger(entered, granted) && i < |granted.threads| && granted.threads[i] == D.Granted(claim.id, claim.job)
           && D.Enabled(granted, D.Record(i))
           && var running := D.Apply(granted, D.Record(i));
           && D.Enabled(running, SettleStep(i, settle))
           && var finishing, answer := D.Apply(running, SettleStep(i, settle)), AnswerTo(s, claim, settle);
           && SameLedger(running, finishing) && i < |finishing.threads|
           && finishing.threads[i] == D.Finishing(claim.job, answer.Some? && LeaseIsSettled(claim.job.kind, answer.value))
           && D.Enabled(finishing, D.Finish(i))
  {
    hide D.Inv, SettlePipeline, SettleSendRow, LeaseIsSettled;
    var entered := D.Apply(s, D.Enter(i));
    D.InvStep(s, D.Enter(i));
    if claim.Leased? {
      var granted := D.Apply(entered, D.Grant(i, claim.id, claim.job.token));
      D.InvStep(entered, D.Grant(i, claim.id, claim.job.token));
      var running := D.Apply(granted, D.Record(i));
      D.InvStep(granted, D.Record(i));
      var finishing := D.Apply(running, SettleStep(i, settle));
      D.InvStep(running, SettleStep(i, settle));
      D.InvStep(finishing, D.Finish(i));
    } else {
      D.InvStep(entered, D.Refuse(i));
      D.InvStep(D.Apply(entered, D.Refuse(i)), D.Leave(i));
    }
  }
}
