/**
  Outbound send slots, keyed by purpose, round and epoch of one run. Every transaction is one
  atomic step; producers may interleave, and crash between any two of their steps.
*/
module SendSlots {
  import opened Prelude

  const MAX_CLARIFICATION_ROUNDS := 3

  datatype Purpose = Clarification | FieldRegression | Confirmation

  datatype Status =
    | Received | Extracting | Computed | AwaitingReply | AwaitingApproval | Approved | Sent | Reconciled
    | NeedsOperator | Rejected | Error

  datatype SendState = Reserved | Delivered | Failed

  type EmailId = nat

  datatype Slot = Slot(purpose: Purpose, round: nat, epoch: nat)

  /** Everything the provider would see: a message id minted for the slot, and the frozen content. */
  datatype Envelope = Envelope(messageId: nat, content: string)

  datatype Row = Row(email: EmailId, envelope: Envelope, state: SendState)

  /**
    One run's durable facts: its row, its outbound slots, and its send jobs in order of insertion.
    `snapshot` says whether the pre-clarification extraction is stored.
   */
  datatype Db = Db(
    status: Status,
    round: nat,
    epoch: nat,
    snapshot: bool,
    rows: map<Slot, Row>,
    jobs: seq<EmailId>,
    emails: nat)

  // ---------------------------------------------------------------------------------------------
  // Transactions
  // ---------------------------------------------------------------------------------------------

  /** One job per email: a second insert with the same key does nothing. */
  function Enqueue(db: Db, email: EmailId): Db {
    if email in db.jobs then db else db.(jobs := db.jobs + [email])
  }

  /** Reads the slot, or inserts it with a new email id; an existing row is returned as it is. */
  function Reserve(db: Db, slot: Slot, envelope: Envelope): (r: Db)
    ensures slot in r.rows
  {
    if slot in db.rows then db
    else db.(rows := db.rows[slot := Row(db.emails, envelope, Reserved)], emails := db.emails + 1)
  }

  /** The reservation and its job, in one transaction. */
  function Freeze(db: Db, slot: Slot, envelope: Envelope): Db {
    var d := Reserve(db, slot, envelope);
    Enqueue(d, d.rows[slot].email)
  }

  /** The snapshot is stored, the round advances past the slot that was used, and the run waits for its reply. */
  function AwaitAnswer(db: Db, used: nat): Db {
    db.(snapshot := true, round := used + 1, status := AwaitingReply)
  }

  function ClearReplyContext(db: Db): Db {
    db.(snapshot := false, round := 0, epoch := db.epoch + 1)
  }

  function ConfirmationSlot(db: Db): Slot {
    Slot(Confirmation, 0, db.epoch)
  }

  predicate ConfirmationDelivered(db: Db) {
    exists s <- db.rows :: s.purpose == Confirmation && s.epoch == db.epoch && db.rows[s].state == Delivered
  }

  /** Finishes a run whose confirmation is out, and otherwise freezes or requeues its one confirmation. */
  function Deliver(db: Db, envelope: Envelope): Db {
    if ConfirmationDelivered(db) then db.(status := Reconciled)
    else Freeze(db, ConfirmationSlot(db), envelope)
  }

  function Approve(db: Db, envelope: Envelope): Db {
    if db.status != AwaitingApproval then db else Deliver(db.(status := Approved), envelope)
  }

  /** Statuses an operator may restart from, the last four only when stale. */
  predicate Retriggerable(status: Status, stale: bool) {
    || status == Error || status == Approved
    || (stale && (status == Received || status == Extracting || status == Computed || status == Sent))
  }

  /**
    An open delivery review has status needs_operator, which is never retriggerable, so it needs no
    case of its own. An active provider handoff rolls the whole transaction back.
   */
  function Retrigger(db: Db, stale: bool, handoffActive: bool): Db {
    if Retriggerable(db.status, stale) && !handoffActive then ClearReplyContext(db.(status := Received)) else db
  }

  /**
    What the operator's request finds: the exact acknowledgement, a confirmation's delivery review on
    the run, and a handoff that is absent or belongs to the reviewed email.
   */
  datatype Review = Review(acknowledged: bool, ofConfirmation: bool, handoffYields: bool)

  predicate Unconfirmed(db: Db, slot: Slot) {
    slot in db.rows && (db.rows[slot].state == Reserved || db.rows[slot].state == Failed)
  }

  /** A replacement may be authorized only for an acknowledged review of this epoch's unconfirmed confirmation. */
  predicate Authorizable(db: Db, review: Review) {
    && review.acknowledged && review.ofConfirmation && review.handoffYields
    && db.status == NeedsOperator && Unconfirmed(db, ConfirmationSlot(db))
  }

  /** A new epoch's confirmation with the reviewed one's content under a new message id. */
  function AuthorizeNewConfirmation(db: Db, review: Review, messageId: nat): Db {
    if !Authorizable(db, review) then db
    else
      var d := ClearReplyContext(db.(status := Approved));
      Freeze(d, ConfirmationSlot(d), Envelope(messageId, db.rows[ConfirmationSlot(db)].envelope.content))
  }

  /** The automatic rewind of a stranded run: the reply context is cleared, the epoch stays. */
  function Rewind(db: Db): Db {
    if db.status == Extracting || db.status == Computed || db.status == Sent
    then db.(status := Received, snapshot := false, round := 0)
    else db
  }

  // ---------------------------------------------------------------------------------------------
  // Clarify, between its transactions
  // ---------------------------------------------------------------------------------------------

  /**
    What a producer has read so far: the run's snapshot when its pass began, then, inside `clarify`,
    the round and the slot.
   */
  datatype Producer =
    | Idle
    | Loaded(snapshot: bool)
    | Escalating
    | ReadRound(purpose: Purpose, round: nat)
    | FoundSent(round: nat)
    | NotSent(purpose: Purpose, round: nat)
    | Replaying(slot: Slot)
    | Composed(purpose: Purpose, round: nat)

  datatype State = State(db: Db, producers: seq<Producer>)

  datatype Step =
    | Load(i: nat)
    | Begin(i: nat, purpose: Purpose)
    | Escalate(i: nat)
    | LookUpSent(i: nat)
    | Finalize(i: nat)
    | LookUpUnconfirmed(i: nat)
    | Replay(i: nat)
    | Commit(i: nat, envelope: Envelope)
    | Crash(i: nat)
    | SetStatus(status: Status)
    | Mark(slot: Slot, state: SendState)
    | ApproveRun(envelope: Envelope)
    | RetriggerRun(stale: bool, handoffActive: bool)
    | AuthorizeRun(review: Review, messageId: nat)
    | RewindRun

  predicate Enabled(s: State, step: Step) {
    match step
    case Load(i) => i < |s.producers| && s.producers[i].Idle?
    case Begin(i, purpose) =>
      // A field regression is a drop against the snapshot the pass began with.
      i < |s.producers| && s.producers[i].Loaded? && purpose != Confirmation && (purpose == FieldRegression ==> s.producers[i].snapshot)
    case Escalate(i) => i < |s.producers| && s.producers[i].Escalating?
    case LookUpSent(i) => i < |s.producers| && s.producers[i].ReadRound?
    case Finalize(i) => i < |s.producers| && s.producers[i].FoundSent?
    case LookUpUnconfirmed(i) => i < |s.producers| && s.producers[i].NotSent?
    case Replay(i) => i < |s.producers| && s.producers[i].Replaying? && s.producers[i].slot in s.db.rows
    case Commit(i, _) => i < |s.producers| && s.producers[i].Composed?
    case Crash(i) => i < |s.producers|
    case SetStatus(_) => true
    case Mark(slot, _) => slot in s.db.rows
    case ApproveRun(_) => true
    case RetriggerRun(_, _) => true
    case AuthorizeRun(_, _) => true
    case RewindRun => true
  }

  function At(s: State, i: nat, p: Producer): State
    requires i < |s.producers|
  {
    s.(producers := s.producers[i := p])
  }

  function CurrentSlot(db: Db, purpose: Purpose, round: nat): Slot {
    Slot(purpose, round, db.epoch)
  }

  predicate ProvenSent(db: Db, slot: Slot) {
    slot in db.rows && db.rows[slot].state == Delivered
  }

  function Apply(s: State, step: Step): State
    requires Enabled(s, step)
  {
    var db := s.db;
    match step
    case Load(i) => At(s, i, Loaded(db.snapshot))
    case Begin(i, purpose) =>
      At(s, i, if db.round >= MAX_CLARIFICATION_ROUNDS then Escalating else ReadRound(purpose, db.round))
    case Escalate(i) => At(s, i, Idle).(db := db.(status := NeedsOperator))
    case LookUpSent(i) =>
      var p := s.producers[i];
      At(s, i, if ProvenSent(db, CurrentSlot(db, p.purpose, p.round)) then FoundSent(p.round) else NotSent(p.purpose, p.round))
    case Finalize(i) => At(s, i, Idle).(db := AwaitAnswer(db, s.producers[i].round))
    case LookUpUnconfirmed(i) =>
      var p := s.producers[i];
      var slot := CurrentSlot(db, p.purpose, p.round);
      At(s, i, if Unconfirmed(db, slot) then Replaying(slot) else Composed(p.purpose, p.round))
    case Replay(i) =>
      var slot := s.producers[i].slot;
      At(s, i, Idle).(db := AwaitAnswer(Enqueue(db, db.rows[slot].email), slot.round))
    case Commit(i, envelope) =>
      var p := s.producers[i];
      At(s, i, Idle).(db := AwaitAnswer(Freeze(db, CurrentSlot(db, p.purpose, p.round), envelope), p.round))
    case Crash(i) => At(s, i, Idle)
    case SetStatus(status) => s.(db := db.(status := status))
    case Mark(slot, state) => s.(db := db.(rows := db.rows[slot := db.rows[slot].(state := state)]))
    case ApproveRun(envelope) => s.(db := Approve(db, envelope))
    case RetriggerRun(stale, handoffActive) => s.(db := Retrigger(db, stale, handoffActive))
    case AuthorizeRun(review, messageId) => s.(db := AuthorizeNewConfirmation(db, review, messageId))
    case RewindRun => s.(db := Rewind(db))
  }

  // ---------------------------------------------------------------------------------------------
  // What holds whatever the producers do
  // ---------------------------------------------------------------------------------------------

  /** Clarification slots lie below the cap, confirmations at round zero. */
  predicate InRange(slot: Slot) {
    if slot.purpose == Confirmation then slot.round == 0 else slot.round < MAX_CLARIFICATION_ROUNDS
  }

  ghost predicate RowsOk(db: Db) {
    && (forall s <- db.rows :: InRange(s) && s.epoch <= db.epoch && db.rows[s].email < db.emails)
    && (forall s <- db.rows, t <- db.rows :: db.rows[s].email == db.rows[t].email ==> s == t)
  }

  ghost predicate JobsOk(db: Db) {
    && (forall s <- db.rows :: db.rows[s].email in db.jobs)
    && (forall e <- db.jobs :: HasRow(db, e))
    && (forall i, j | 0 <= i < j < |db.jobs| :: db.jobs[i] != db.jobs[j])
  }

  ghost predicate DbInv(db: Db) {
    RowsOk(db) && JobsOk(db)
  }

  ghost predicate HasRow(db: Db, e: EmailId) {
    exists s <- db.rows :: db.rows[s].email == e
  }

  /** What a producer has read lies below the cap. */
  predicate Bounded(p: Producer) {
    match p
    case Idle => true
    case Loaded(_) => true
    case Escalating => true
    case ReadRound(purpose, r) => purpose != Confirmation && r < MAX_CLARIFICATION_ROUNDS
    case FoundSent(r) => r < MAX_CLARIFICATION_ROUNDS
    case NotSent(purpose, r) => purpose != Confirmation && r < MAX_CLARIFICATION_ROUNDS
    case Replaying(slot) => InRange(slot) && slot.purpose != Confirmation
    case Composed(purpose, r) => purpose != Confirmation && r < MAX_CLARIFICATION_ROUNDS
  }

  ghost predicate Inv(s: State) {
    DbInv(s.db) && forall i | 0 <= i < |s.producers| :: Bounded(s.producers[i])
  }

  /** No slot is ever lost, and its email id and envelope never change. */
  ghost predicate Frozen(a: Db, b: Db) {
    && a.epoch <= b.epoch
    && forall s <- a.rows :: s in b.rows && b.rows[s].email == a.rows[s].email && b.rows[s].envelope == a.rows[s].envelope
  }

  lemma FreezeKeeps(db: Db, slot: Slot, envelope: Envelope)
    requires DbInv(db) && InRange(slot) && slot.epoch <= db.epoch
    ensures DbInv(Freeze(db, slot, envelope)) && Frozen(db, Freeze(db, slot, envelope))
  {
    var after := Freeze(db, slot, envelope);
    if slot in db.rows {
      assert after == db;
    } else {
      assert !HasRow(db, db.emails);
      assert after == db.(rows := db.rows[slot := Row(db.emails, envelope, Reserved)], emails := db.emails + 1, jobs := db.jobs + [db.emails]);
      NewRowsOk(db, slot, envelope, after);
      NewJobsOk(db, slot, envelope, after);
    }
  }

  lemma NewRowsOk(db: Db, slot: Slot, envelope: Envelope, after: Db)
    requires RowsOk(db) && slot !in db.rows && InRange(slot) && slot.epoch <= db.epoch
    requires after.rows == db.rows[slot := Row(db.emails, envelope, Reserved)] && after.emails == db.emails + 1
    requires after.epoch == db.epoch
    ensures RowsOk(after)
  {
  }

  lemma NewJobsOk(db: Db, slot: Slot, envelope: Envelope, after: Db)
    requires JobsOk(db) && slot !in db.rows && db.emails !in db.jobs
    requires after.rows == db.rows[slot := Row(db.emails, envelope, Reserved)] && after.jobs == db.jobs + [db.emails]
    ensures JobsOk(after)
  {
    forall e | e in after.jobs ensures HasRow(after, e) {
      if e == db.emails {
        assert after.rows[slot].email == e;
      } else {
        var s :| s in db.rows && db.rows[s].email == e;
        assert after.rows[s].email == e;
      }
    }
  }

  /** Neither the run's own columns nor a slot's state play a part, as long as the epoch does not fall. */
  lemma SameFacts(db: Db, after: Db)
    requires DbInv(db) && after.jobs == db.jobs && after.emails == db.emails && db.epoch <= after.epoch
    requires after.rows.Keys == db.rows.Keys
    requires forall s <- db.rows :: after.rows[s].email == db.rows[s].email && after.rows[s].envelope == db.rows[s].envelope
    ensures DbInv(after) && Frozen(db, after)
  {
    forall e | HasRow(db, e) ensures HasRow(after, e) {
      var s :| s in db.rows && db.rows[s].email == e;
      assert after.rows[s].email == e;
    }
  }

  lemma ColumnsAreFree(db: Db, after: Db)
    requires DbInv(db) && db.epoch <= after.epoch
    requires after == db.(status := after.status, round := after.round, epoch := after.epoch, snapshot := after.snapshot)
    ensures DbInv(after) && Frozen(db, after)
  {
    hide DbInv;
    SameFacts(db, after);
  }

  lemma MarkKeeps(db: Db, slot: Slot, state: SendState)
    requires DbInv(db) && slot in db.rows
    ensures var after := db.(rows := db.rows[slot := db.rows[slot].(state := state)]); DbInv(after) && Frozen(db, after)
  {
    hide DbInv;
    SameFacts(db, db.(rows := db.rows[slot := db.rows[slot].(state := state)]));
  }

  lemma DeliverKeeps(db: Db, envelope: Envelope)
    requires DbInv(db)
    ensures DbInv(Deliver(db, envelope)) && Frozen(db, Deliver(db, envelope))
  {
    hide DbInv, Freeze;
    ColumnsAreFree(db, db.(status := Reconciled));
    FreezeKeeps(db, ConfirmationSlot(db), envelope);
  }

  lemma ClarifyStepKeeps(db: Db, p: Producer, step: Step)
    requires DbInv(db) && Bounded(p) && Enabled(State(db, [p]), step)
    requires step.Escalate? || step.Finalize? || step.Replay? || step.Commit?
    requires step.i == 0
    ensures var after := Apply(State(db, [p]), step).db; DbInv(after) && Frozen(db, after)
  {
    hide DbInv, Freeze, Frozen;
    match step
    case Escalate(_) => ColumnsAreFree(db, db.(status := NeedsOperator));
    case Finalize(_) => ColumnsAreFree(db, AwaitAnswer(db, p.round));
    case Replay(_) =>
      EnqueuedAlready(db, p.slot);
      ColumnsAreFree(db, AwaitAnswer(db, p.slot.round));
    case Commit(_, envelope) =>
      var d := Freeze(db, CurrentSlot(db, p.purpose, p.round), envelope);
      FreezeKeeps(db, CurrentSlot(db, p.purpose, p.round), envelope);
      FreezeColumns(db, CurrentSlot(db, p.purpose, p.round), envelope);
      ColumnsAreFree(d, AwaitAnswer(d, p.round));
      FrozenChains(db, d, AwaitAnswer(d, p.round));
  }

  lemma FrozenChains(a: Db, b: Db, c: Db)
    requires Frozen(a, b) && Frozen(b, c)
    ensures Frozen(a, c)
  {
  }

  lemma FreezeColumns(db: Db, slot: Slot, envelope: Envelope)
    ensures var d := Freeze(db, slot, envelope); d.epoch == db.epoch && d.round == db.round && d.status == db.status
  {
  }

  lemma EnqueuedAlready(db: Db, slot: Slot)
    requires DbInv(db) && slot in db.rows
    ensures Enqueue(db, db.rows[slot].email) == db
  {
  }

  lemma RunStepKeeps(db: Db, step: Step)
    requires DbInv(db) && Enabled(State(db, []), step)
    requires step.SetStatus? || step.Mark? || step.ApproveRun? || step.RetriggerRun? || step.AuthorizeRun? || step.RewindRun?
    ensures var after := Apply(State(db, []), step).db; DbInv(after) && Frozen(db, after)
  {
    hide DbInv, Freeze, Deliver;
    match step
    case SetStatus(status) => ColumnsAreFree(db, db.(status := status));
    case Mark(slot, state) => MarkKeeps(db, slot, state);
    case ApproveRun(envelope) =>
      ColumnsAreFree(db, db.(status := Approved));
      DeliverKeeps(db.(status := Approved), envelope);
    case RetriggerRun(stale, handoffActive) => ColumnsAreFree(db, Retrigger(db, stale, handoffActive));
    case AuthorizeRun(review, messageId) =>
      var d := ClearReplyContext(db.(status := Approved));
      ColumnsAreFree(db, d);
      ColumnsAreFree(db, db);
      if ConfirmationSlot(db) in db.rows {
        FreezeKeeps(d, ConfirmationSlot(d), Envelope(messageId, db.rows[ConfirmationSlot(db)].envelope.content));
      }
    case RewindRun => ColumnsAreFree(db, Rewind(db));
  }

  predicate ProducerStep(step: Step) {
    || step.Load? || step.Begin? || step.Escalate? || step.LookUpSent? || step.Finalize? || step.LookUpUnconfirmed? || step.Replay?
    || step.Commit? || step.Crash?
  }

  lemma InvStep(s: State, step: Step)
    requires Inv(s) && Enabled(s, step)
    ensures Inv(Apply(s, step)) && Frozen(s.db, Apply(s, step).db)
  {
    hide DbInv, Freeze, Deliver, AuthorizeNewConfirmation;
    if !ProducerStep(step) {
      RunStepKeeps(s.db, step);
    } else if step.Escalate? || step.Finalize? || step.Replay? || step.Commit? {
      var p := s.producers[step.i];
      match step
      case Escalate(_) => ClarifyStepKeeps(s.db, p, Escalate(0));
      case Finalize(_) => ClarifyStepKeeps(s.db, p, Finalize(0));
      case Replay(_) => ClarifyStepKeeps(s.db, p, Replay(0));
      case Commit(_, envelope) => ClarifyStepKeeps(s.db, p, Commit(0, envelope));
    }
  }

  /** The round a call to clarify stands by once it has read it. */
  function ReadBy(p: Producer): Option<nat> {
    match p
    case ReadRound(_, r) => Some(r)
    case FoundSent(r) => Some(r)
    case NotSent(_, r) => Some(r)
    case Replaying(slot) => Some(slot.round)
    case Composed(_, r) => Some(r)
    case _ => None
  }

  /**
    However others move the counter meanwhile, a call stands by the round it read: it stays the call's until the
    call ends, and a call that ends, other than by a crash, leaves the run waiting with the counter just past it.
   */
  lemma CallsStandByTheirRound(s: State, step: Step, i: nat)
    requires Enabled(s, step) && i < |s.producers| && ReadBy(s.producers[i]).Some?
    ensures var t, r := Apply(s, step), ReadBy(s.producers[i]).value;
      && i < |t.producers|
      && (ReadBy(t.producers[i]) == Some(r) || t.producers[i].Idle?)
      && (t.producers[i].Idle? && step != Crash(i) ==> t.db.round == r + 1 && t.db.status == AwaitingReply && t.db.snapshot)
  {
    hide Freeze, Deliver, AuthorizeNewConfirmation;
  }

  /** A call sees the cap once, when it reads the round; past it, it only moves the run to the operator. */
  lemma CapIsReadOnce(s: State, i: nat, purpose: Purpose)
    requires Enabled(s, Begin(i, purpose))
    ensures var t := Apply(s, Begin(i, purpose));
      && t.db == s.db
      && (if s.db.round < 3 then ReadBy(t.producers[i]) == Some(s.db.round)
          else Enabled(t, Escalate(i)) && Apply(t, Escalate(i)).db == s.db.(status := NeedsOperator))
  {
  }

  // ---------------------------------------------------------------------------------------------
  // Runs
  // ---------------------------------------------------------------------------------------------

  const NEW_RUN := Db(Received, 0, 0, false, map[], [], 0)

  function Boot(n: nat): State {
    State(NEW_RUN, seq(n, _ => Idle))
  }

  predicate Runs(s: State, steps: seq<Step>, rewinds: bool)
    decreases |steps|
  {
    steps == [] || (Enabled(s, steps[0]) && (steps[0].RewindRun? ==> rewinds) && Runs(Apply(s, steps[0]), steps[1..], rewinds))
  }

  function End(s: State, steps: seq<Step>, rewinds: bool): State
    requires Runs(s, steps, rewinds)
    decreases |steps|
  {
    if steps == [] then s else End(Apply(s, steps[0]), steps[1..], rewinds)
  }

  /** Over any run the invariant holds, and no frozen envelope has changed since the start. */
  lemma {:induction false} EveryRunKeepsInv(s: State, steps: seq<Step>, rewinds: bool)
    requires Inv(s) && Runs(s, steps, rewinds)
    ensures Inv(End(s, steps, rewinds)) && Frozen(s.db, End(s, steps, rewinds).db)
    decreases |steps|
  {
    hide Inv, Frozen;
    if steps == [] {
      FrozenStill(s.db);
    } else {
      InvStep(s, steps[0]);
      var t := Apply(s, steps[0]);
      EveryRunKeepsInv(t, steps[1..], rewinds);
      FrozenChains(s.db, t.db, End(t, steps[1..], rewinds).db);
    }
  }

  lemma FrozenStill(db: Db)
    ensures Frozen(db, db)
  {
  }

  /** The clarification slots of one epoch. */
  ghost function Questions(db: Db, epoch: nat): set<Slot> {
    set s | s in db.rows && s.purpose != Confirmation && s.epoch == epoch
  }

  ghost function Confirmations(db: Db, epoch: nat): set<Slot> {
    set s | s in db.rows && s.purpose == Confirmation && s.epoch == epoch
  }

  function SlotNumber(s: Slot): nat {
    (if s.purpose == Clarification then 0 else 3) + s.round
  }

  /**
    Whatever the interleaving, crashes, rewinds and restarts: an epoch holds at most six
    clarification emails and one confirmation, and every frozen email has exactly one send job.
   */
  lemma SlotsAreBounded(n: nat, steps: seq<Step>, rewinds: bool, epoch: nat)
    requires Runs(Boot(n), steps, rewinds)
    ensures var db := End(Boot(n), steps, rewinds).db;
      && |Questions(db, epoch)| <= 2 * MAX_CLARIFICATION_ROUNDS
      && |Confirmations(db, epoch)| <= 1
      && (forall s <- db.rows :: multiset(db.jobs)[db.rows[s].email] == 1)
      && (forall e <- db.jobs :: HasRow(db, e))
  {
    EveryRunKeepsInv(Boot(n), steps, rewinds);
    var db := End(Boot(n), steps, rewinds).db;
    FewSlots(db, epoch);
    forall s | s in db.rows ensures multiset(db.jobs)[db.rows[s].email] == 1 {
      OnceInSeq(db.jobs, db.rows[s].email);
    }
  }

  lemma FewSlots(db: Db, epoch: nat)
    requires forall s <- db.rows :: InRange(s)
    ensures |Questions(db, epoch)| <= 2 * MAX_CLARIFICATION_ROUNDS && |Confirmations(db, epoch)| <= 1
  {
    DistinctKeysBound(Questions(db, epoch), SlotNumber, 2 * MAX_CLARIFICATION_ROUNDS);
    DistinctKeysBound(Confirmations(db, epoch), (s: Slot) => s.round, 1);
  }

  lemma {:induction false} OnceInSeq(jobs: seq<EmailId>, e: EmailId)
    requires e in jobs && forall i, j | 0 <= i < j < |jobs| :: jobs[i] != jobs[j]
    ensures multiset(jobs)[e] == 1
  {
    var n := |jobs| - 1;
    assert jobs == jobs[..n] + [jobs[n]];
    if jobs[n] != e {
      OnceInSeq(jobs[..n], e);
    }
  }
}
