/** One run's durable record, changed in place by clarify, approval, delivery and the operator's actions. */
module RunRecord {
  import opened Prelude
  import opened SendSlots
  import opened ClarificationRounds

  /** Statuses an operator may restart a run from, whatever its age; the wider set is for runs gone stale. */
  const FRESH: set<Status> := {Error, Approved}
  const FRESH_OR_STALE: set<Status> := FRESH + {Received, Extracting, Computed, Sent}

  /** The slot is there with what it had, or with a new reserved row, and its email is among the jobs. */
  ghost predicate OneSlot(db: Db, after: Db, slot: Slot, envelope: Envelope) {
    && slot in after.rows
    && after.rows == db.rows[slot := if slot in db.rows then db.rows[slot] else Row(db.emails, envelope, Reserved)]
    && after.jobs == if after.rows[slot].email in db.jobs then db.jobs else db.jobs + [after.rows[slot].email]
  }

  /**
    A call to clarify: past three rounds the run only goes to the operator. Before that the round's slot is
    used, the snapshot is kept, the round advances and the run waits; the worker is woken unless that email is out already.
   */
  ghost predicate Asked(db: Db, after: Db, purpose: Purpose, envelope: Envelope, wake: bool) {
    if db.round >= 3 then after == db.(status := NeedsOperator) && !wake
    else
      var slot := Slot(purpose, db.round, db.epoch);
      && after.status == AwaitingReply && after.snapshot && after.round == db.round + 1 && after.epoch == db.epoch
      && OneSlot(db, after, slot, envelope)
      && (wake <==> after.rows[slot].state != Delivered)
  }

  /** An approval: nothing unless the run awaits it; a delivered confirmation ends the run; otherwise its one confirmation goes out. */
  ghost predicate ApprovedOnce(db: Db, after: Db, envelope: Envelope, wake: bool) {
    var slot := Slot(Confirmation, 0, db.epoch);
    if db.status != AwaitingApproval then after == db && !wake
    else if slot in db.rows && db.rows[slot].state == Delivered then after == db.(status := Reconciled) && !wake
    else
      && wake && OneSlot(db, after, slot, envelope)
      && after.status == Approved && after.round == db.round && after.epoch == db.epoch && after.snapshot == db.snapshot
  }

  /**
    A replacement: done exactly for an acknowledged review of a confirmation of this epoch that is not
    delivered, with a yielding handoff; then a new epoch holds that content under a new message id, queued once.
   */
  ghost predicate Replaced(db: Db, after: Db, review: Review, messageId: nat, done: bool) {
    var reviewed, replacement := Slot(Confirmation, 0, db.epoch), Slot(Confirmation, 0, db.epoch + 1);
    && (done <==>
          && review.acknowledged && review.ofConfirmation && review.handoffYields && db.status == NeedsOperator
          && reviewed in db.rows && db.rows[reviewed].state != Delivered)
    && (!done ==> after == db)
    && (done ==>
          && after.status == Approved && after.epoch == db.epoch + 1 && after.round == 0 && !after.snapshot
          && after.rows == db.rows[replacement := Row(db.emails, Envelope(messageId, db.rows[reviewed].envelope.content), Reserved)]
          && after.jobs == db.jobs + [db.emails])
  }

  class Run {
    var status: Status
    var round: nat
    var epoch: nat
    var snapshot: bool
    var rows: map<Slot, Row>
    var jobs: seq<EmailId>
    var emails: nat

    constructor ()
      ensures View() == NEW_RUN && Valid()
    {
      status, round, epoch, snapshot := Received, 0, 0, false;
      rows, jobs, emails := map[], [], 0;
    }

    ghost function View(): Db
      reads this
    {
      Db(status, round, epoch, snapshot, rows, jobs, emails)
    }

    ghost predicate Valid()
      reads this
    {
      DbInv(View())
    }

    method EnqueueSend(email: EmailId)
      modifies this`jobs
      ensures View() == Enqueue(old(View()), email)
    {
      if email !in jobs {
        jobs := jobs + [email];
      }
    }

    /** Reads the slot or inserts it; an existing envelope is returned as it was frozen. */
    method ReserveSnapshot(slot: Slot, envelope: Envelope) returns (row: Row)
      modifies this`rows, this`emails
      ensures View() == Reserve(old(View()), slot, envelope)
      ensures slot in rows && row == rows[slot]
      ensures slot in old(rows) ==> row == old(rows)[slot]
    {
      if slot !in rows {
        rows := rows[slot := Row(emails, envelope, Reserved)];
        emails := emails + 1;
      }
      row := rows[slot];
    }

    /** The reservation and its one job, in the caller's transaction. */
    method FreezeAndQueue(slot: Slot, envelope: Envelope)
      modifies this`rows, this`emails, this`jobs
      ensures View() == Freeze(old(View()), slot, envelope)
    {
      var row := ReserveSnapshot(slot, envelope);
      EnqueueSend(row.email);
    }

    /** An uninterrupted clarify: the cap, the proven-sent slot, the frozen slot, or a new reservation. */
    method Clarify(purpose: Purpose, envelope: Envelope) returns (wake: bool)
      requires Valid() && purpose != Confirmation
      modifies this
      ensures View() == Clarified(old(View()), purpose, envelope) && Valid()
      ensures Frozen(old(View()), View())
      ensures Asked(old(View()), View(), purpose, envelope, wake)
    {
      hide DbInv, Frozen, Asked;
      ClarifiedKeeps(View(), purpose, envelope);
      ClarifiedAsks(View(), purpose, envelope);
      var current := round;
      if current >= MAX_CLARIFICATION_ROUNDS {
        status := NeedsOperator;
        return false;
      }
      var slot := Slot(purpose, current, epoch);
      if slot in rows && rows[slot].state == Delivered {
        snapshot := true;
        round := slot.round + 1;
        status := AwaitingReply;
        return false;
      }
      if slot in rows && (rows[slot].state == Reserved || rows[slot].state == Failed) {
        EnqueueSend(rows[slot].email);
        snapshot := true;
        round := slot.round + 1;
        status := AwaitingReply;
        return true;
      }
      FreezeAndQueue(slot, envelope);
      snapshot := true;
      round := slot.round + 1;
      status := AwaitingReply;
      wake := true;
    }

    /** The human gate: one claim, one frozen confirmation, one job. */
    method ApproveAndDeliver(envelope: Envelope) returns (wake: bool)
      requires Valid()
      modifies this
      ensures View() == Approve(old(View()), envelope) && Valid()
      ensures Frozen(old(View()), View())
      ensures ApprovedOnce(old(View()), View(), envelope, wake)
    {
      hide DbInv, Frozen, ApprovedOnce;
      RunStepKeeps(View(), ApproveRun(envelope));
      ApproveApproves(View(), envelope);
      if status != AwaitingApproval {
        return false;
      }
      status := Approved;
      if exists s <- rows :: s.purpose == Confirmation && s.epoch == epoch && rows[s].state == Delivered {
        status := Reconciled;
        return false;
      }
      FreezeAndQueue(Slot(Confirmation, 0, epoch), envelope);
      wake := true;
    }

    /** An active provider handoff rolls the claim and the context clear back together. */
    method RetriggerRun(stale: bool, handoffActive: bool) returns (claimed: bool)
      requires Valid()
      modifies this
      ensures View() == Retrigger(old(View()), stale, handoffActive) && Valid()
      ensures claimed <==> !handoffActive && old(status) in (if stale then FRESH_OR_STALE else FRESH)
      ensures claimed ==> View() == old(View()).(status := Received, round := 0, snapshot := false, epoch := old(epoch) + 1)
      ensures !claimed ==> View() == old(View())
    {
      ColumnsAreFree(View(), Retrigger(View(), stale, handoffActive));
      claimed := Retriggerable(status, stale) && !handoffActive;
      if claimed {
        status := Received;
        snapshot := false;
        round := 0;
        epoch := epoch + 1;
      }
    }

    /** The automatic rewind of a run stranded in the pipeline: back to received in the same epoch, its reply context cleared. */
    method RewindForReclaim() returns (rewound: bool)
      requires Valid()
      modifies this
      ensures View() == Rewind(old(View())) && Valid()
      ensures rewound <==> old(status) == Extracting || old(status) == Computed || old(status) == Sent
      ensures View() == if rewound then old(View()).(status := Received, round := 0, snapshot := false) else old(View())
    {
      ColumnsAreFree(View(), Rewind(View()));
      rewound := status == Extracting || status == Computed || status == Sent;
      if rewound {
        status := Received;
        snapshot := false;
        round := 0;
      }
    }

    /** A replacement confirmation in a new epoch, with the reviewed one's content; every refusal changes nothing. */
    method AuthorizeNew(review: Review, messageId: nat) returns (done: bool)
      requires Valid()
      modifies this
      ensures View() == AuthorizeNewConfirmation(old(View()), review, messageId) && Valid()
      ensures Frozen(old(View()), View())
      ensures Replaced(old(View()), View(), review, messageId, done)
    {
      hide DbInv, Frozen, Freeze, Replaced;
      RunStepKeeps(View(), AuthorizeRun(review, messageId));
      AuthorizeReplaces(View(), review, messageId);
      if !review.acknowledged || !review.ofConfirmation {
        return false;
      }
      var reviewed := Slot(Confirmation, 0, epoch);
      if reviewed !in rows || rows[reviewed].state == Delivered || status != NeedsOperator || !review.handoffYields {
        return false;
      }
      var content := rows[reviewed].envelope.content;
      status := Approved;
      snapshot := false;
      round := 0;
      epoch := epoch + 1;
      FreezeAndQueue(Slot(Confirmation, 0, epoch), Envelope(messageId, content));
      done := true;
    }
  }

  lemma FreezesOneSlot(db: Db, slot: Slot, envelope: Envelope)
    ensures OneSlot(db, Freeze(db, slot, envelope), slot, envelope)
  {
  }

  lemma ClarifiedAsks(db: Db, purpose: Purpose, envelope: Envelope)
    requires DbInv(db)
    ensures var wake := db.round < MAX_CLARIFICATION_ROUNDS && !ProvenSent(db, CurrentSlot(db, purpose, db.round));
      Asked(db, Clarified(db, purpose, envelope), purpose, envelope, wake)
  {
    hide RowsOk, Freeze;
    var slot := CurrentSlot(db, purpose, db.round);
    FreezesOneSlot(db, slot, envelope);
    FreezeColumns(db, slot, envelope);
    assert slot in db.rows ==> db.rows[slot := db.rows[slot]] == db.rows;
  }

  lemma ApproveApproves(db: Db, envelope: Envelope)
    requires DbInv(db)
    ensures var wake := db.status == AwaitingApproval && !ConfirmationDelivered(db);
      ApprovedOnce(db, Approve(db, envelope), envelope, wake)
  {
    hide JobsOk, Freeze;
    var slot := ConfirmationSlot(db);
    var claimed := db.(status := Approved);
    FreezesOneSlot(claimed, slot, envelope);
    FreezeColumns(claimed, slot, envelope);
    FrozenSnapshot(claimed, slot, envelope);
    assert ConfirmationDelivered(db) <==> slot in db.rows && db.rows[slot].state == Delivered by {
      assert forall s <- db.rows | s.purpose == Confirmation && s.epoch == db.epoch :: s == slot;
    }
    assert ConfirmationDelivered(claimed) <==> ConfirmationDelivered(db);
  }

  lemma FrozenSnapshot(db: Db, slot: Slot, envelope: Envelope)
    ensures Freeze(db, slot, envelope).snapshot == db.snapshot
  {
  }

  /** The new epoch has no slot yet, so the replacement is frozen as given. */
  lemma AuthorizeReplaces(db: Db, review: Review, messageId: nat)
    requires DbInv(db)
    ensures Replaced(db, AuthorizeNewConfirmation(db, review, messageId), review, messageId, Authorizable(db, review))
  {
    if Authorizable(db, review) {
      assert Slot(Confirmation, 0, db.epoch + 1) !in db.rows;
      assert !HasRow(db, db.emails);
    }
  }

  /** An uninterrupted clarify keeps the slot invariant and every frozen envelope. */
  lemma ClarifiedKeeps(db: Db, purpose: Purpose, envelope: Envelope)
    requires DbInv(db) && purpose != Confirmation
    ensures DbInv(Clarified(db, purpose, envelope)) && Frozen(db, Clarified(db, purpose, envelope))
  {
    hide DbInv, Frozen, Runs, End;
    var s := State(db, [Loaded(true)]);
    UninterruptedClarify(s, 0, purpose, envelope, false);
    assert Inv(s);
    EveryRunKeepsInv(s, ClarifySteps(db, 0, purpose, envelope), false);
  }
}
