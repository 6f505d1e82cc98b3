/**
  Settling one outbound send: the job row, its frozen message, its run and the run's provider handoff
  change together in one transaction, or not at all.
*/
module OutboundSettlement {
  import opened Prelude
  import opened Settlement
  import S = SendSlots

  type EmailId = nat
  type JobId = nat

  /** The replay ladder: one slot for each claim, all within the replay window. */
  const REPLAY_SLOTS: nat := 8

  /** The frozen message of the job's email. A row from outside the three purposes has none. */
  datatype Message = Message(run: RunId, purpose: Option<S.Purpose>, epoch: nat, state: S.SendState, windowOpen: bool)

  datatype Run = Run(status: S.Status, epoch: nat, recordOnly: bool)

  /** The run's one active authority to call the provider. */
  datatype Handoff = Handoff(email: EmailId, job: JobId, epoch: nat, token: Token)

  datatype Fact = Sent | RetryScheduled | ReviewNeeded

  /** What the transaction can see: the job row, its message and run, the active handoff and the attempt ledger. */
  datatype World = World(
    row: Row,
    rowEmail: Option<EmailId>,
    message: Option<Message>,
    run: Option<Run>,
    handoff: Option<Handoff>,
    ledger: seq<Fact>)

  /** The worker's copy of the job it sent. */
  datatype Job = Job(id: JobId, claimed: Claimed, email: Option<EmailId>)

  datatype Reason = RecordOnly | AuthorizationExpired | Replayable | OtherReason

  datatype Result = Result(verdict: Verdict, atDelivery: bool, reason: Reason)

  type Settled = Option<(World, Outcome)>

  // ---------------------------------------------------------------------------------------------
  // Conditional writes: each fails when its condition misses, and a failure raises
  // ---------------------------------------------------------------------------------------------

  function FreeRow(w: World, job: Job): Option<World> {
    if w.row.lease == Some(job.claimed.token) then Some(w.(row := Freed(w.row))) else None
  }

  function MarkSent(w: World): Option<World> {
    if w.message.Some? && w.message.value.state == S.Reserved
    then Some(w.(message := Some(w.message.value.(state := S.Delivered))))
    else None
  }

  function Advance(w: World, from: S.Status, to: S.Status): Option<World> {
    if w.run.Some? && w.run.value.status == from then Some(w.(run := Some(w.run.value.(status := to)))) else None
  }

  /** The active handoff is this very lease's. */
  predicate OwnsHandoff(w: World, job: Job) {
    && w.handoff.Some? && w.message.Some? && job.email.Some?
    && w.handoff.value == Handoff(job.email.value, job.id, w.message.value.epoch, job.claimed.token)
  }

  function ReleaseHandoff(w: World, job: Job): Option<World> {
    if OwnsHandoff(w, job) then Some(w.(handoff := None)) else None
  }

  function Append(w: World, fact: Fact): World {
    w.(ledger := w.ledger + [fact])
  }

  // ---------------------------------------------------------------------------------------------
  // The decision tree
  // ---------------------------------------------------------------------------------------------

  predicate ContextMatches(w: World, job: Job) {
    && w.row.kind == SendOutbound && job.claimed.kind == SendOutbound
    && w.row.run.Some? && w.row.run == job.claimed.run
    && w.rowEmail.Some? && w.rowEmail == job.email
  }

  /** The status in which a run waits for this purpose's delivery. */
  function ExpectedStatus(purpose: S.Purpose): S.Status {
    if purpose == S.Confirmation then S.Approved else S.AwaitingReply
  }

  /** The message is the run's reserved one of the current epoch, and the run waits for it. */
  predicate StillOwed(w: World) {
    && w.message.Some? && w.run.Some?
    && Some(w.message.value.run) == w.row.run
    && w.message.value.purpose.Some?
    && w.message.value.state == S.Reserved
    && w.message.value.epoch == w.run.value.epoch
    && w.run.value.status == ExpectedStatus(w.message.value.purpose.value)
  }

  /** An obsolete lease is retired without touching delivery state. */
  function Retire(w: World, job: Job): Settled {
    var freed :- FreeRow(w, job);
    Some((freed, InvalidContext))
  }

  /** Post-send work: a confirmation takes its run to sent and then to reconciled. */
  function CompleteRun(w: World): Option<World>
    requires w.message.Some? && w.message.value.purpose.Some?
  {
    if w.message.value.purpose.value != S.Confirmation then Some(w)
    else
      var sent :- Advance(w, S.Approved, S.Sent);
      Advance(sent, S.Sent, S.Reconciled)
  }

  function DeliverRecord(w: World, job: Job): Settled
    requires StillOwed(w)
  {
    if !w.run.value.recordOnly then Retire(w, job)
    else
      var sent :- MarkSent(w);
      var completed :- CompleteRun(sent);
      var freed :- FreeRow(completed, job);
      Some((freed, Done))
  }

  function SendToReview(w: World, job: Job, expected: S.Status): Settled {
    var reviewed :- Advance(Append(w, ReviewNeeded), expected, S.NeedsOperator);
    var freed :- FreeRow(reviewed, job);
    Some((freed, Done))
  }

  /** The provider was never called because its authority had run out. */
  predicate ExpiredBeforeProvider(w: World, result: Result)
    requires StillOwed(w)
  {
    && result.verdict == Terminal && result.atDelivery && result.reason == AuthorizationExpired
    && !w.run.value.recordOnly && !w.message.value.windowOpen
  }

  predicate MayReplay(w: World, result: Result)
    requires StillOwed(w)
  {
    result.verdict == Retryable && result.reason == Replayable && w.message.value.windowOpen && w.row.attempts < REPLAY_SLOTS
  }

  function UnderAuthority(w: World, job: Job, result: Result): Settled
    requires StillOwed(w) && OwnsHandoff(w, job)
  {
    var released :- ReleaseHandoff(w, job);
    if result.verdict == Okay then
      var sent :- MarkSent(Append(released, Sent));
      var completed :- CompleteRun(sent);
      var freed :- FreeRow(completed, job);
      Some((freed, Done))
    else if MayReplay(w, result) then
      var freed :- FreeRow(Append(released, RetryScheduled), job);
      Some((freed, Retried))
    else
      SendToReview(released, job, ExpectedStatus(w.message.value.purpose.value))
  }

  /** None is an exception, which rolls everything back. */
  function SettleOutbound(w: World, job: Job, result: Result): Settled {
    if w.row.lease != Some(job.claimed.token) then Some((w, LostLease))
    else if !ContextMatches(w, job) || !StillOwed(w) then Retire(w, job)
    else if result.reason == RecordOnly then DeliverRecord(w, job)
    else if ExpiredBeforeProvider(w, result) && w.handoff.None? then
      SendToReview(w, job, ExpectedStatus(w.message.value.purpose.value))
    else if !OwnsHandoff(w, job) then Retire(w, job)
    else UnderAuthority(w, job, result)
  }

  // ---------------------------------------------------------------------------------------------
  // What every settlement keeps
  // ---------------------------------------------------------------------------------------------

  /** The rows read under lock make every conditional write succeed: no settlement raises for a lost condition. */
  lemma NeverRaises(w: World, job: Job, result: Result)
    ensures SettleOutbound(w, job, result).Some?
  {
  }

  /** The message is delivered by this settlement. */
  predicate Delivers(w: World, after: World) {
    w.message.Some? && after.message.Some? && w.message.value.state != S.Delivered && after.message.value.state == S.Delivered
  }

  /**
    Every answer makes the worker forget its token, none is a fence, and the lease is then gone: freed
    here, or lost before. On the job row alone each branch does what the drain's step does.
   */
  lemma OutboundNeverStrands(w: World, job: Job, result: Result)
    ensures var settled := SettleOutbound(w, job, result);
      && settled.Some?
      && var (after, outcome) := settled.value;
         && LeaseIsSettled(SendOutbound, outcome) && outcome != Fenced
         && after.row.lease != Some(job.claimed.token)
         && (exists how :: (how == Done || how == Retried || how == InvalidContext)
               && (after.row, outcome) == SettleSendRow(w.row, job.claimed, how))
  {
    var (after, outcome) := SettleOutbound(w, job, result).value;
    var how := if outcome == LostLease then Done else outcome;
    assert (after.row, outcome) == SettleSendRow(w.row, job.claimed, how);
  }

  /** A lost lease changes nothing at all, and an invalid context frees the lease and nothing else. */
  lemma ObsoleteWorkLeavesDeliveryAlone(w: World, job: Job, result: Result)
    requires var settled := SettleOutbound(w, job, result);
      settled.Some? && (settled.value.1 == LostLease || settled.value.1 == InvalidContext)
    ensures var (after, outcome) := SettleOutbound(w, job, result).value;
      after == if outcome == LostLease then w else w.(row := Freed(w.row))
  {
  }

  // ---------------------------------------------------------------------------------------------
  // Which answer, told from the rows
  // ---------------------------------------------------------------------------------------------

  /**
    The lease is the worker's, the row is the job it claimed, and its message is the run's reserved one of
    the current epoch: the confirmation of an approved run, or a question of a run that awaits its reply.
   */
  ghost predicate Current(w: World, job: Job) {
    && w.row.lease == Some(job.claimed.token)
    && w.row.kind == SendOutbound && job.claimed.kind == SendOutbound
    && w.row.run.Some? && job.claimed.run == w.row.run
    && w.rowEmail.Some? && job.email == w.rowEmail
    && w.message.Some? && w.run.Some?
    && var message, run := w.message.value, w.run.value;
    && message.run == w.row.run.value && message.epoch == run.epoch && message.state == S.Reserved
    && match message.purpose
       case Some(Confirmation) => run.status == S.Approved
       case Some(_) => run.status == S.AwaitingReply
       case None => false
  }

  /** The one active handoff names this email, this job, this epoch and this lease. */
  ghost predicate Authorized(w: World, job: Job) {
    && w.handoff.Some? && w.message.Some? && job.email.Some?
    && w.handoff.value.email == job.email.value && w.handoff.value.job == job.id
    && w.handoff.value.epoch == w.message.value.epoch && w.handoff.value.token == job.claimed.token
  }

  /** The authority ran out before the provider was called, and nobody holds a handoff. */
  ghost predicate RanOut(w: World, result: Result)
    requires w.message.Some? && w.run.Some?
  {
    && result.reason == AuthorizationExpired && result.verdict == Terminal && result.atDelivery
    && !w.run.value.recordOnly && !w.message.value.windowOpen && w.handoff == None
  }

  /** What entitles a settlement to mark the message sent. */
  ghost predicate MaySend(w: World, job: Job, result: Result) {
    && Current(w, job)
    && if result.reason == RecordOnly then w.run.value.recordOnly
       else result.verdict == Okay && Authorized(w, job)
  }

  /** A replayable failure, with the message's window still open and fewer than eight attempts made. */
  ghost predicate MayTryAgain(w: World, job: Job, result: Result) {
    && Current(w, job) && Authorized(w, job)
    && result.verdict == Retryable && result.reason == Replayable
    && w.message.value.windowOpen && w.row.attempts < 8
  }

  /** Every other failure under authority, and an authority that ran out, goes to the operator. */
  ghost predicate NeedsReview(w: World, job: Job, result: Result) {
    && Current(w, job) && result.reason != RecordOnly
    && (RanOut(w, result) || (Authorized(w, job) && result.verdict != Okay && !MayTryAgain(w, job, result)))
  }

  lemma GuardsMean(w: World, job: Job)
    requires w.row.lease == Some(job.claimed.token)
    ensures Current(w, job) <==> ContextMatches(w, job) && StillOwed(w)
    ensures Authorized(w, job) <==> OwnsHandoff(w, job)
  {
  }

  /**
    A message becomes sent exactly under its own lease, for the run and epoch that still await it, and
    with the provider's acceptance under its own handoff, or for a record-only run. Its run is then
    reconciled if it was the confirmation, and stays as it was if it was a question.
   */
  lemma SentExactlyWithAuthority(w: World, job: Job, result: Result)
    requires SettleOutbound(w, job, result).Some?
    ensures var (after, outcome) := SettleOutbound(w, job, result).value;
      && (Delivers(w, after) <==> MaySend(w, job, result))
      && (Delivers(w, after) ==>
            && outcome == Done
            && after.run == if w.message.value.purpose == Some(S.Confirmation)
                            then Some(w.run.value.(status := S.Reconciled)) else w.run)
  {
    if w.row.lease == Some(job.claimed.token) {
      GuardsMean(w, job);
    }
  }

  /**
    Each of the other answers is given exactly on its own condition of the rows: a replay, a review by the
    operator, a lease that was lost, and otherwise a lease without authority.
   */
  lemma AnswersExactly(w: World, job: Job, result: Result)
    ensures var settled := SettleOutbound(w, job, result);
      && settled.Some?
      && var (after, outcome) := settled.value;
         && (outcome == LostLease <==> w.row.lease != Some(job.claimed.token))
         && (outcome == Retried <==> MayTryAgain(w, job, result))
         && (outcome == Done <==> MaySend(w, job, result) || NeedsReview(w, job, result))
         && (outcome == InvalidContext <==>
               w.row.lease == Some(job.claimed.token)
               && !MayTryAgain(w, job, result) && !MaySend(w, job, result) && !NeedsReview(w, job, result))
         && (after.ledger == w.ledger + match outcome
              case Retried => [RetryScheduled]
              case Done => if NeedsReview(w, job, result) then [ReviewNeeded] else if result.reason == RecordOnly then [] else [Sent]
              case _ => [])
  {
    if w.row.lease == Some(job.claimed.token) {
      GuardsMean(w, job);
    }
  }

  /**
    An unsent message is never lost: while it is still owed under this lease, settling sends it,
    schedules its one replay with the run as it was, hands the run to the operator, or retires a lease
    without authority and leaves message, run and handoff alone.
   */
  lemma OwedMailIsAccountedFor(w: World, job: Job, result: Result)
    requires Current(w, job)
    ensures var settled := SettleOutbound(w, job, result);
      && settled.Some?
      && var (after, outcome) := settled.value;
         || (MaySend(w, job, result) && outcome == Done && Delivers(w, after))
         || (NeedsReview(w, job, result) && outcome == Done && after.message == w.message
             && after.run == Some(w.run.value.(status := S.NeedsOperator)) && after.handoff == None)
         || (MayTryAgain(w, job, result) && outcome == Retried && after.message == w.message && after.run == w.run && after.handoff == None)
         || (outcome == InvalidContext && after == w.(row := Freed(w.row))
             && if result.reason == RecordOnly then !w.run.value.recordOnly else !Authorized(w, job))
  {
    GuardsMean(w, job);
  }
}
