/**
  Clarify as one uninterrupted call, and exactly when the emails of one epoch are at most three,
  at distinct rounds.
*/
module ClarificationRounds {
  import opened Prelude
  import opened SendSlots

  /** A call to clarify with nobody else at work on the run. */
  function Clarified(db: Db, purpose: Purpose, envelope: Envelope): Db {
    var slot := CurrentSlot(db, purpose, db.round);
    if db.round >= MAX_CLARIFICATION_ROUNDS then db.(status := NeedsOperator)
    else if ProvenSent(db, slot) then AwaitAnswer(db, db.round)
    else if Unconfirmed(db, slot) then AwaitAnswer(Enqueue(db, db.rows[slot].email), db.round)
    else AwaitAnswer(Freeze(db, slot, envelope), db.round)
  }

  /** The steps such a call takes, once its pass has loaded the run. */
  function ClarifySteps(db: Db, i: nat, purpose: Purpose, envelope: Envelope): seq<Step> {
    var slot := CurrentSlot(db, purpose, db.round);
    if db.round >= MAX_CLARIFICATION_ROUNDS then [Begin(i, purpose), Escalate(i)]
    else if ProvenSent(db, slot) then [Begin(i, purpose), LookUpSent(i), Finalize(i)]
    else if Unconfirmed(db, slot) then [Begin(i, purpose), LookUpSent(i), LookUpUnconfirmed(i), Replay(i)]
    else [Begin(i, purpose), LookUpSent(i), LookUpUnconfirmed(i), Commit(i, envelope)]
  }

  /** A producer that has loaded the run and may ask for this purpose. */
  predicate Ready(p: Producer, purpose: Purpose) {
    p.Loaded? && purpose != Confirmation && (purpose == FieldRegression ==> p.snapshot)
  }

  /** The call's own steps, run without interruption, are the whole call. */
  lemma UninterruptedClarify(s: State, i: nat, purpose: Purpose, envelope: Envelope, rewinds: bool)
    requires i < |s.producers| && Ready(s.producers[i], purpose)
    ensures var steps := ClarifySteps(s.db, i, purpose, envelope);
      Runs(s, steps, rewinds) && End(s, steps, rewinds) == At(s, i, Idle).(db := Clarified(s.db, purpose, envelope))
  {
    hide Freeze, Enqueue;
    var slot := CurrentSlot(s.db, purpose, s.db.round);
    var done := At(s, i, Idle).(db := Clarified(s.db, purpose, envelope));
    if s.db.round >= MAX_CLARIFICATION_ROUNDS {
      Then(At(s, i, Escalating), Escalate(i), done, [], rewinds);
      Then(s, Begin(i, purpose), At(s, i, Escalating), [Escalate(i)], rewinds);
    } else {
      var read := At(s, i, ReadRound(purpose, s.db.round));
      if ProvenSent(s.db, slot) {
        var found := At(s, i, FoundSent(s.db.round));
        Then(found, Finalize(i), done, [], rewinds);
        Then(read, LookUpSent(i), found, [Finalize(i)], rewinds);
        Then(s, Begin(i, purpose), read, [LookUpSent(i), Finalize(i)], rewinds);
      } else {
        var last := if Unconfirmed(s.db, slot) then Replay(i) else Commit(i, envelope);
        ReadsTwice(s, i, purpose, last, done, rewinds);
      }
    }
  }

  /** The path past the proven-sent lookup: two reads, then one transaction. */
  lemma ReadsTwice(s: State, i: nat, purpose: Purpose, last: Step, done: State, rewinds: bool)
    requires i < |s.producers| && Ready(s.producers[i], purpose) && s.db.round < MAX_CLARIFICATION_ROUNDS
    requires var slot := CurrentSlot(s.db, purpose, s.db.round);
      var reached := At(s, i, if Unconfirmed(s.db, slot) then Replaying(slot) else Composed(purpose, s.db.round));
      !ProvenSent(s.db, slot) && Enabled(reached, last) && !last.RewindRun? && Apply(reached, last) == done
    ensures var steps := [Begin(i, purpose), LookUpSent(i), LookUpUnconfirmed(i), last];
      Runs(s, steps, rewinds) && End(s, steps, rewinds) == done
  {
    hide Unconfirmed, ProvenSent, Runs, End;
    var slot := CurrentSlot(s.db, purpose, s.db.round);
    var reached := At(s, i, if Unconfirmed(s.db, slot) then Replaying(slot) else Composed(purpose, s.db.round));
    Nothing(done, rewinds);
    Then(reached, last, done, [], rewinds);
    assert [last] + [] == [last];
    ReadsToCommit(s, i, purpose, reached, [last], rewinds);
    assert [Begin(i, purpose), LookUpSent(i), LookUpUnconfirmed(i)] + [last] ==
           [Begin(i, purpose), LookUpSent(i), LookUpUnconfirmed(i), last];
  }

  /** From a loaded producer to its last transaction. */
  lemma ReadsToCommit(s: State, i: nat, purpose: Purpose, reached: State, rest: seq<Step>, rewinds: bool)
    requires i < |s.producers| && Ready(s.producers[i], purpose) && s.db.round < MAX_CLARIFICATION_ROUNDS
    requires var slot := CurrentSlot(s.db, purpose, s.db.round);
      && !ProvenSent(s.db, slot) && Runs(reached, rest, rewinds)
      && reached == At(s, i, if Unconfirmed(s.db, slot) then Replaying(slot) else Composed(purpose, s.db.round))
    ensures var steps := [Begin(i, purpose), LookUpSent(i), LookUpUnconfirmed(i)] + rest;
      Runs(s, steps, rewinds) && End(s, steps, rewinds) == End(reached, rest, rewinds)
  {
    hide Unconfirmed, ProvenSent, Runs, End;
    var read, missed := At(s, i, ReadRound(purpose, s.db.round)), At(s, i, NotSent(purpose, s.db.round));
    Then(missed, LookUpUnconfirmed(i), reached, rest, rewinds);
    Then(read, LookUpSent(i), missed, [LookUpUnconfirmed(i)] + rest, rewinds);
    Then(s, Begin(i, purpose), read, [LookUpSent(i), LookUpUnconfirmed(i)] + rest, rewinds);
  }

  lemma Nothing(s: State, rewinds: bool)
    ensures Runs(s, [], rewinds) && End(s, [], rewinds) == s
  {
  }

  lemma Then(s: State, step: Step, t: State, rest: seq<Step>, rewinds: bool)
    requires Enabled(s, step) && (step.RewindRun? ==> rewinds) && Apply(s, step) == t && Runs(t, rest, rewinds)
    ensures Runs(s, [step] + rest, rewinds) && End(s, [step] + rest, rewinds) == End(t, rest, rewinds)
    ensures forall all :: all == [step] + rest ==> Runs(s, all, rewinds) && End(s, all, rewinds) == End(t, rest, rewinds)
  {
    assert ([step] + rest)[1..] == rest;
  }

  // ---------------------------------------------------------------------------------------------
  // Three emails, three rounds
  // ---------------------------------------------------------------------------------------------

  /** No two questions of one epoch share a round. */
  ghost predicate DistinctRounds(db: Db) {
    forall s <- db.rows, t <- db.rows ::
      s.purpose != Confirmation && t.purpose != Confirmation && s.epoch == t.epoch && s.round == t.round ==> s == t
  }

  /** Distinct rounds below the cap leave room for three. */
  lemma AtMostThree(db: Db, epoch: nat)
    requires DbInv(db) && DistinctRounds(db)
    ensures |Questions(db, epoch)| <= MAX_CLARIFICATION_ROUNDS
  {
    DistinctKeysBound(Questions(db, epoch), (s: Slot) => s.round, MAX_CLARIFICATION_ROUNDS);
  }

  /** Questions are at distinct rounds, and those of the current epoch lie below the counter. */
  ghost predicate BelowTheCounter(db: Db) {
    && DistinctRounds(db)
    && forall k <- db.rows :: k.epoch <= db.epoch && (k.epoch == db.epoch && k.purpose != Confirmation ==> k.round < db.round)
  }

  /** Questions of this epoch lie below the counter, and the lone producer read no lower than it. */
  ghost predicate LoneInv(s: State) {
    && |s.producers| <= 1
    && BelowTheCounter(s.db)
    && (|s.producers| == 1 ==>
          match s.producers[0]
          case ReadRound(purpose, r) => purpose != Confirmation && s.db.round <= r
          case NotSent(purpose, r) => purpose != Confirmation && s.db.round <= r
          case Composed(purpose, r) => purpose != Confirmation && s.db.round <= r
          case FoundSent(_) => false
          case Replaying(_) => false
          case _ => true)
  }

  lemma FreezeRows(db: Db, slot: Slot, envelope: Envelope)
    ensures Freeze(db, slot, envelope).rows.Keys == db.rows.Keys + {slot}
    ensures var d := Freeze(db, slot, envelope); d.epoch == db.epoch && d.round == db.round
  {
  }

  lemma QuestionAdded(db: Db, purpose: Purpose, round: nat, envelope: Envelope)
    requires BelowTheCounter(db) && purpose != Confirmation && db.round <= round
    ensures BelowTheCounter(AwaitAnswer(Freeze(db, CurrentSlot(db, purpose, round), envelope), round))
  {
    hide Freeze;
    FreezeRows(db, CurrentSlot(db, purpose, round), envelope);
  }

  lemma ConfirmationAdded(db: Db, envelope: Envelope)
    requires BelowTheCounter(db)
    ensures BelowTheCounter(Freeze(db, ConfirmationSlot(db), envelope))
  {
    hide Freeze;
    FreezeRows(db, ConfirmationSlot(db), envelope);
  }

  lemma ColumnsKeepRounds(db: Db, after: Db)
    requires BelowTheCounter(db) && after.rows.Keys == db.rows.Keys
    requires (after.epoch == db.epoch && db.round <= after.round) || after.epoch == db.epoch + 1
    ensures BelowTheCounter(after)
  {
  }

  lemma CounterStep(s: State, step: Step)
    requires LoneInv(s) && Enabled(s, step) && !step.RewindRun?
    ensures BelowTheCounter(Apply(s, step).db)
  {
    hide Freeze, BelowTheCounter;
    var db := s.db;
    match step
    case Commit(i, envelope) => QuestionAdded(db, s.producers[0].purpose, s.producers[0].round, envelope);
    case ApproveRun(envelope) =>
      ColumnsKeepRounds(db, db.(status := Approved));
      ColumnsKeepRounds(db, db.(status := Reconciled));
      ConfirmationAdded(db.(status := Approved), envelope);
    case AuthorizeRun(review, messageId) =>
      ColumnsKeepRounds(db, ClearReplyContext(db.(status := Approved)));
      if ConfirmationSlot(db) in db.rows {
        ConfirmationAdded(ClearReplyContext(db.(status := Approved)),
                          Envelope(messageId, db.rows[ConfirmationSlot(db)].envelope.content));
      }
    case RetriggerRun(stale, handoffActive) => ColumnsKeepRounds(db, Retrigger(db, stale, handoffActive));
    case SetStatus(status) => ColumnsKeepRounds(db, db.(status := status));
    case Mark(slot, state) => ColumnsKeepRounds(db, Apply(s, step).db);
    case Escalate(_) => ColumnsKeepRounds(db, db.(status := NeedsOperator));
    case _ =>
  }

  lemma LoneStep(s: State, step: Step)
    requires LoneInv(s) && Enabled(s, step) && !step.RewindRun?
    ensures LoneInv(Apply(s, step))
  {
    hide LoneInv;
    CounterStep(s, step);
    LoneProducerStep(s, step);
  }

  /** A lone producer never finds its slot taken. */
  lemma LoneProducerStep(s: State, step: Step)
    requires LoneInv(s) && Enabled(s, step) && !step.RewindRun? && BelowTheCounter(Apply(s, step).db)
    ensures LoneInv(Apply(s, step))
  {
    hide DistinctRounds;
    if !ProducerStep(step) {
      RoundNeverGrowsAside(s, step);
    }
    hide Freeze, Deliver;
  }

  lemma RoundNeverGrowsAside(s: State, step: Step)
    requires LoneInv(s) && Enabled(s, step) && !step.RewindRun? && !ProducerStep(step)
    ensures Apply(s, step).db.round <= s.db.round
  {
  }

  lemma {:induction false} LoneRun(s: State, steps: seq<Step>)
    requires LoneInv(s) && Runs(s, steps, false)
    ensures LoneInv(End(s, steps, false))
    decreases |steps|
  {
    hide LoneInv;
    if steps != [] {
      LoneStep(s, steps[0]);
      LoneRun(Apply(s, steps[0]), steps[1..]);
    }
  }

  /**
    Without rewinds and with one producer at a time: once an epoch has three questions, the next
    attempt freezes nothing, queues nothing, and only moves the run to the operator.
   */
  lemma AfterThreeOnlyEscalates(steps: seq<Step>, purpose: Purpose, envelope: Envelope)
    requires Runs(Boot(1), steps, false)
    ensures var db := End(Boot(1), steps, false).db;
      && |Questions(db, db.epoch)| <= MAX_CLARIFICATION_ROUNDS
      && (|Questions(db, db.epoch)| == MAX_CLARIFICATION_ROUNDS ==> Clarified(db, purpose, envelope) == db.(status := NeedsOperator))
  {
    LoneRun(Boot(1), steps);
    EveryRunKeepsInv(Boot(1), steps, false);
    var db := End(Boot(1), steps, false).db;
    AtMostThree(db, db.epoch);
    DistinctKeysBound(Questions(db, db.epoch), (s: Slot) => s.round, db.round);
  }

  ghost predicate AlwaysDistinct(n: nat, rewinds: bool) {
    forall steps: seq<Step> :: Runs(Boot(n), steps, rewinds) ==> DistinctRounds(End(Boot(n), steps, rewinds).db)
  }

  const MAIL := Envelope(0, "")

  // ---------------------------------------------------------------------------------------------
  // Runs the program takes
  // ---------------------------------------------------------------------------------------------

  /** The run's columns and the slots it has used. */
  datatype Look = Look(status: Status, round: nat, epoch: nat, snapshot: bool, slots: set<Slot>)

  ghost predicate Looks(db: Db, look: Look) {
    && db.status == look.status && db.round == look.round && db.epoch == look.epoch && db.snapshot == look.snapshot
    && db.rows.Keys == look.slots
    && forall s <- db.rows :: db.rows[s].state == Reserved
  }

  /** A run of n producers reaches this look with producer 0 standing at `first` and every other one idle. */
  ghost predicate Reachable(n: nat, rewinds: bool, first: Producer, look: Look) {
    exists steps: seq<Step> :: Runs(Boot(n), steps, rewinds) && ShowsAt(End(Boot(n), steps, rewinds), n, first, look)
  }

  ghost predicate ShowsAt(s: State, n: nat, first: Producer, look: Look) {
    && |s.producers| == n
    && (forall i | 0 <= i < n :: s.producers[i] == if i == 0 then first else Idle)
    && Looks(s.db, look)
  }

  lemma {:induction false} Concat(s: State, a: seq<Step>, b: seq<Step>, rewinds: bool)
    requires Runs(s, a, rewinds) && Runs(End(s, a, rewinds), b, rewinds)
    ensures Runs(s, a + b, rewinds) && End(s, a + b, rewinds) == End(End(s, a, rewinds), b, rewinds)
    decreases |a|
  {
    if a == [] {
      assert a + b == b;
    } else {
      Concat(Apply(s, a[0]), a[1..], b, rewinds);
      assert (a + b)[1..] == a[1..] + b;
    }
  }

  /** Where a reachable look is reached. */
  lemma Arrive(n: nat, rewinds: bool, first: Producer, look: Look) returns (steps: seq<Step>, s: State)
    requires Reachable(n, rewinds, first, look)
    ensures Runs(Boot(n), steps, rewinds) && End(Boot(n), steps, rewinds) == s && ShowsAt(s, n, first, look)
  {
    steps :| Runs(Boot(n), steps, rewinds) && ShowsAt(End(Boot(n), steps, rewinds), n, first, look);
    s := End(Boot(n), steps, rewinds);
  }

  lemma Extend(n: nat, rewinds: bool, steps: seq<Step>, more: seq<Step>, first: Producer, look: Look)
    requires Runs(Boot(n), steps, rewinds) && Runs(End(Boot(n), steps, rewinds), more, rewinds)
    requires ShowsAt(End(End(Boot(n), steps, rewinds), more, rewinds), n, first, look)
    ensures Reachable(n, rewinds, first, look)
  {
    Concat(Boot(n), steps, more, rewinds);
  }

  lemma One(s: State, step: Step, rewinds: bool)
    requires Enabled(s, step) && (step.RewindRun? ==> rewinds)
    ensures Runs(s, [step], rewinds) && End(s, [step], rewinds) == Apply(s, step)
  {
    Then(s, step, Apply(s, step), [], rewinds);
  }

  const NOTHING_ASKED := Look(Received, 0, 0, false, {})

  lemma StartIsReachable(n: nat, rewinds: bool)
    ensures Reachable(n, rewinds, Idle, NOTHING_ASKED)
  {
    assert ShowsAt(End(Boot(n), [], rewinds), n, Idle, NOTHING_ASKED);
  }

  /** A whole clarify call at an unused or still reserved slot. */
  lemma AskedLooks(db: Db, look: Look, purpose: Purpose)
    requires Looks(db, look) && look.round < MAX_CLARIFICATION_ROUNDS
    ensures Looks(Clarified(db, purpose, MAIL),
                  Look(AwaitingReply, look.round + 1, look.epoch, true, look.slots + {Slot(purpose, look.round, look.epoch)}))
  {
    var slot := Slot(purpose, look.round, look.epoch);
    if slot in db.rows {
      assert look.slots + {slot} == look.slots;
    }
  }

  /** The last producer loads the run and asks. */
  lemma Asks(n: nat, rewinds: bool, first: Producer, look: Look, purpose: Purpose)
    requires Reachable(n, rewinds, first, look) && n > 0 && (n >= 2 || first == Idle)
    requires look.round < MAX_CLARIFICATION_ROUNDS && purpose != Confirmation && (purpose == FieldRegression ==> look.snapshot)
    ensures Reachable(n, rewinds, first,
                      Look(AwaitingReply, look.round + 1, look.epoch, true, look.slots + {Slot(purpose, look.round, look.epoch)}))
  {
    hide Runs, End, Reachable, Clarified, ClarifySteps, Looks;
    var steps, s := Arrive(n, rewinds, first, look);
    var k := n - 1;
    var loaded := At(s, k, Loaded(look.snapshot));
    assert Apply(s, Load(k)) == loaded by {
      LooksSnapshot(s.db, look);
    }
    UninterruptedClarify(loaded, k, purpose, MAIL, rewinds);
    var call := ClarifySteps(loaded.db, k, purpose, MAIL);
    Then(s, Load(k), loaded, call, rewinds);
    AskedLooks(s.db, look, purpose);
    Extend(n, rewinds, steps, [Load(k)] + call, first,
           Look(AwaitingReply, look.round + 1, look.epoch, true, look.slots + {Slot(purpose, look.round, look.epoch)}));
  }

  lemma LooksSnapshot(db: Db, look: Look)
    requires Looks(db, look)
    ensures db.snapshot == look.snapshot && db.round == look.round && db.epoch == look.epoch
  {
  }

  /** The reply is claimed, or the restarted run is. */
  lemma IsClaimed(n: nat, rewinds: bool, first: Producer, look: Look)
    requires Reachable(n, rewinds, first, look)
    ensures Reachable(n, rewinds, first, look.(status := Extracting))
  {
    hide Runs, End, Reachable;
    var steps, s := Arrive(n, rewinds, first, look);
    One(s, SetStatus(Extracting), rewinds);
    Extend(n, rewinds, steps, [SetStatus(Extracting)], first, look.(status := Extracting));
  }

  /** The worker dies and the reclaimed job rewinds the run. */
  lemma IsRewound(n: nat, first: Producer, look: Look)
    requires Reachable(n, true, first, look) && look.status == Extracting
    ensures Reachable(n, true, first, look.(status := Received, round := 0, snapshot := false))
  {
    hide Runs, End, Reachable;
    var steps, s := Arrive(n, true, first, look);
    One(s, RewindRun, true);
    Extend(n, true, steps, [RewindRun], first, look.(status := Received, round := 0, snapshot := false));
  }

  /** The operator restarts a stale run in a new epoch. */
  lemma IsRetriggered(n: nat, rewinds: bool, first: Producer, look: Look)
    requires Reachable(n, rewinds, first, look) && look.status == Extracting
    ensures Reachable(n, rewinds, first, Look(Received, 0, look.epoch + 1, false, look.slots))
  {
    hide Runs, End, Reachable;
    var steps, s := Arrive(n, rewinds, first, look);
    One(s, RetriggerRun(true, false), rewinds);
    Extend(n, rewinds, steps, [RetriggerRun(true, false)], first, Look(Received, 0, look.epoch + 1, false, look.slots));
  }

  /** Producer 0 loads the run. */
  lemma Loads(n: nat, rewinds: bool, look: Look)
    requires Reachable(n, rewinds, Idle, look) && n > 0
    ensures Reachable(n, rewinds, Loaded(look.snapshot), look)
  {
    hide Runs, End, Reachable;
    var steps, s := Arrive(n, rewinds, Idle, look);
    One(s, Load(0), rewinds);
    Extend(n, rewinds, steps, [Load(0)], Loaded(look.snapshot), look);
  }

  /** Producer 0, loaded, asks to the end. */
  lemma FirstAsks(n: nat, rewinds: bool, look: Look)
    requires Reachable(n, rewinds, Loaded(true), look) && n > 0 && look.round < MAX_CLARIFICATION_ROUNDS
    ensures Reachable(n, rewinds, Idle,
                      Look(AwaitingReply, look.round + 1, look.epoch, true, look.slots + {Slot(FieldRegression, look.round, look.epoch)}))
  {
    hide Runs, End, Reachable, Clarified, ClarifySteps, Looks;
    var steps, s := Arrive(n, rewinds, Loaded(true), look);
    UninterruptedClarify(s, 0, FieldRegression, MAIL, rewinds);
    AskedLooks(s.db, look, FieldRegression);
    Extend(n, rewinds, steps, ClarifySteps(s.db, 0, FieldRegression, MAIL), Idle,
           Look(AwaitingReply, look.round + 1, look.epoch, true, look.slots + {Slot(FieldRegression, look.round, look.epoch)}));
  }

  /** Producer 0, loaded, composes a question about a dropped field and stops short of its transaction. */
  lemma FirstComposes(n: nat, rewinds: bool, look: Look)
    requires Reachable(n, rewinds, Loaded(true), look) && n > 0 && look.round < MAX_CLARIFICATION_ROUNDS
    requires Slot(FieldRegression, look.round, look.epoch) !in look.slots
    ensures Reachable(n, rewinds, Composed(FieldRegression, look.round), look)
  {
    hide Runs, End, Reachable;
    var steps, s := Arrive(n, rewinds, Loaded(true), look);
    var composed := At(s, 0, Composed(FieldRegression, look.round));
    Nothing(composed, rewinds);
    ReadsToCommit(s, 0, FieldRegression, composed, [], rewinds);
    Extend(n, rewinds, steps, [Begin(0, FieldRegression), LookUpSent(0), LookUpUnconfirmed(0)] + [],
           Composed(FieldRegression, look.round), look);
  }

  /** The composed question is committed at last, in whatever epoch the run is by then. */
  lemma FirstCommits(n: nat, rewinds: bool, look: Look, round: nat)
    requires Reachable(n, rewinds, Composed(FieldRegression, round), look) && n > 0
    ensures Reachable(n, rewinds, Idle,
                      Look(AwaitingReply, round + 1, look.epoch, true, look.slots + {Slot(FieldRegression, round, look.epoch)}))
  {
    hide Runs, End, Reachable;
    var steps, s := Arrive(n, rewinds, Composed(FieldRegression, round), look);
    One(s, Commit(0, MAIL), rewinds);
    var slot := Slot(FieldRegression, round, look.epoch);
    if slot in s.db.rows {
      assert look.slots + {slot} == look.slots;
    }
    Extend(n, rewinds, steps, [Commit(0, MAIL)], Idle, Look(AwaitingReply, round + 1, look.epoch, true, look.slots + {slot}));
  }

  // ---------------------------------------------------------------------------------------------
  // A rewind, and a stale producer
  // ---------------------------------------------------------------------------------------------

  const FIRST := Slot(Clarification, 0, 0)
  const SECOND := Slot(FieldRegression, 1, 0)
  const REPEATED := Slot(Clarification, 1, 0)

  /** Asked, answered, and asked about a dropped field: two rounds of one epoch. */
  lemma TwoRounds(n: nat, rewinds: bool)
    requires n > 0
    ensures Reachable(n, rewinds, Idle, Look(Extracting, 1, 0, true, {FIRST}))
    ensures Reachable(n, rewinds, Idle, Look(Extracting, 2, 0, true, {FIRST, SECOND}))
  {
    hide Reachable;
    StartIsReachable(n, rewinds);
    Asks(n, rewinds, Idle, NOTHING_ASKED, Clarification);
    assert NOTHING_ASKED.slots + {FIRST} == {FIRST};
    IsClaimed(n, rewinds, Idle, Look(AwaitingReply, 1, 0, true, {FIRST}));
    Asks(n, rewinds, Idle, Look(Extracting, 1, 0, true, {FIRST}), FieldRegression);
    assert {FIRST} + {SECOND} == {FIRST, SECOND};
    IsClaimed(n, rewinds, Idle, Look(AwaitingReply, 2, 0, true, {FIRST, SECOND}));
  }

  /** The worker of the second answer dies: the first question is found again, and the next one reuses round one. */
  lemma ARoundIsReused(n: nat)
    requires n > 0
    ensures Reachable(n, true, Idle, Look(AwaitingReply, 2, 0, true, {FIRST, SECOND, REPEATED}))
  {
    hide Reachable;
    TwoRounds(n, true);
    var both := {FIRST, SECOND};
    IsRewound(n, Idle, Look(Extracting, 2, 0, true, both));
    Asks(n, true, Idle, Look(Received, 0, 0, false, both), Clarification);
    assert both + {FIRST} == both;
    IsClaimed(n, true, Idle, Look(AwaitingReply, 1, 0, true, both));
    Asks(n, true, Idle, Look(Extracting, 1, 0, true, both), Clarification);
    assert both + {REPEATED} == {FIRST, SECOND, REPEATED};
  }

  /**
    A resume composes its question at round one and stalls; the operator restarts the stale run, whose
    new epoch asks at rounds zero and one; then the stalled question is committed at round one of it.
   */
  lemma AStaleQuestionCollides(n: nat, rewinds: bool)
    requires n >= 2
    ensures Reachable(n, rewinds, Idle,
      Look(AwaitingReply, 2, 1, true, {FIRST, Slot(Clarification, 0, 1), Slot(Clarification, 1, 1), Slot(FieldRegression, 1, 1)}))
  {
    hide Reachable;
    TwoRounds(n, rewinds);
    Loads(n, rewinds, Look(Extracting, 1, 0, true, {FIRST}));
    FirstComposes(n, rewinds, Look(Extracting, 1, 0, true, {FIRST}));
    var stale := Composed(FieldRegression, 1);
    IsRetriggered(n, rewinds, stale, Look(Extracting, 1, 0, true, {FIRST}));
    Asks(n, rewinds, stale, Look(Received, 0, 1, false, {FIRST}), Clarification);
    var one := {FIRST} + {Slot(Clarification, 0, 1)};
    IsClaimed(n, rewinds, stale, Look(AwaitingReply, 1, 1, true, one));
    Asks(n, rewinds, stale, Look(Extracting, 1, 1, true, one), Clarification);
    var two := one + {Slot(Clarification, 1, 1)};
    FirstCommits(n, rewinds, Look(AwaitingReply, 2, 1, true, two), 1);
    assert two + {Slot(FieldRegression, 1, 1)} ==
           {FIRST, Slot(Clarification, 0, 1), Slot(Clarification, 1, 1), Slot(FieldRegression, 1, 1)};
  }

  // ---------------------------------------------------------------------------------------------
  // Six questions
  // ---------------------------------------------------------------------------------------------

  function Rounds(purpose: Purpose): set<Slot> {
    {Slot(purpose, 0, 0), Slot(purpose, 1, 0), Slot(purpose, 2, 0)}
  }

  /** The third answer stalls with the snapshot in hand, its run is rewound, and it asks at round zero. */
  lemma FourQuestions(n: nat)
    requires n > 0
    ensures Reachable(n, true, Idle, Look(Extracting, 1, 0, true, {FIRST} + Rounds(FieldRegression)))
  {
    hide Reachable;
    TwoRounds(n, true);
    Asks(n, true, Idle, Look(Extracting, 2, 0, true, {FIRST, SECOND}), FieldRegression);
    var three := {FIRST, SECOND} + {Slot(FieldRegression, 2, 0)};
    IsClaimed(n, true, Idle, Look(AwaitingReply, 3, 0, true, three));
    Loads(n, true, Look(Extracting, 3, 0, true, three));
    IsRewound(n, Loaded(true), Look(Extracting, 3, 0, true, three));
    FirstAsks(n, true, Look(Received, 0, 0, false, three));
    var four := three + {Slot(FieldRegression, 0, 0)};
    assert four == {FIRST} + Rounds(FieldRegression);
    IsClaimed(n, true, Idle, Look(AwaitingReply, 1, 0, true, four));
  }

  lemma SixQuestions(n: nat)
    requires n > 0
    ensures Reachable(n, true, Idle, Look(AwaitingReply, 3, 0, true, Rounds(Clarification) + Rounds(FieldRegression)))
  {
    hide Reachable;
    FourQuestions(n);
    var four := {FIRST} + Rounds(FieldRegression);
    Asks(n, true, Idle, Look(Extracting, 1, 0, true, four), Clarification);
    var five := four + {Slot(Clarification, 1, 0)};
    IsClaimed(n, true, Idle, Look(AwaitingReply, 2, 0, true, five));
    Asks(n, true, Idle, Look(Extracting, 2, 0, true, five), Clarification);
    assert five + {Slot(Clarification, 2, 0)} == Rounds(Clarification) + Rounds(FieldRegression);
  }

  /** The bound of six is attained: some run freezes six questions in one epoch. */
  lemma SixIsReached(n: nat) returns (steps: seq<Step>)
    requires n > 0
    ensures Runs(Boot(n), steps, true) && |Questions(End(Boot(n), steps, true).db, 0)| == 2 * MAX_CLARIFICATION_ROUNDS
  {
    SixQuestions(n);
    var s: State;
    var all := Rounds(Clarification) + Rounds(FieldRegression);
    steps, s := Arrive(n, true, Idle, Look(AwaitingReply, 3, 0, true, all));
    assert Questions(s.db, 0) == all;
    assert |all| == 6 by {
      assert Rounds(Clarification) !! Rounds(FieldRegression);
    }
  }

  /**
    Within an epoch the questions are at distinct rounds, and so at most three, in every run exactly
    when one producer at a time works on it and no stranded run is rewound within its epoch.
   */
  lemma DistinctRoundsExactly(n: nat, rewinds: bool)
    ensures AlwaysDistinct(n, rewinds) <==> n == 0 || (n == 1 && !rewinds)
  {
    if n == 0 || (n == 1 && !rewinds) {
      forall steps: seq<Step> | Runs(Boot(n), steps, rewinds) ensures DistinctRounds(End(Boot(n), steps, rewinds).db) {
        if n == 0 {
          NoProducersNoQuestions(Boot(0), steps, rewinds);
        } else {
          LoneRun(Boot(n), steps);
        }
      }
    } else if rewinds {
      ARoundIsReused(n);
      var steps, s := Arrive(n, true, Idle, Look(AwaitingReply, 2, 0, true, {FIRST, SECOND, REPEATED}));
      assert SECOND in s.db.rows && REPEATED in s.db.rows;
      assert !DistinctRounds(End(Boot(n), steps, rewinds).db);
    } else {
      AStaleQuestionCollides(n, rewinds);
      var slots := {FIRST, Slot(Clarification, 0, 1), Slot(Clarification, 1, 1), Slot(FieldRegression, 1, 1)};
      var steps, s := Arrive(n, rewinds, Idle, Look(AwaitingReply, 2, 1, true, slots));
      assert Slot(Clarification, 1, 1) in s.db.rows && Slot(FieldRegression, 1, 1) in s.db.rows;
      assert !DistinctRounds(End(Boot(n), steps, rewinds).db);
    }
  }

  lemma {:induction false} NoProducersNoQuestions(s: State, steps: seq<Step>, rewinds: bool)
    requires |s.producers| == 0 && Runs(s, steps, rewinds) && forall k <- s.db.rows :: k.purpose == Confirmation
    ensures forall k <- End(s, steps, rewinds).db.rows :: k.purpose == Confirmation
    decreases |steps|
  {
    if steps != [] {
      NoProducersNoQuestions(Apply(s, steps[0]), steps[1..], rewinds);
    }
  }
}
