/**
  The lease ledger of one process: any number of threads claim, run and settle jobs, and a
  shutdown asks which leases the process holds.
*/
module Drain {
  import opened Prelude
  import opened Settlement

  type JobId = nat

  /** A thread between two atomic steps of one drain. The first three lie inside the claim window. */
  datatype Thread =
    | Idle
    | Claiming
    | Granted(id: JobId, job: Claimed)
    | NoJob
    | Running(id: JobId, job: Claimed)
    | Finishing(job: Claimed, settled: bool)

  /**
    `used` holds every token ever issued and `abandoned` the live leases the process gave up
    knowing about; both record history only.
   */
  datatype State = State(
    threads: seq<Thread>,
    held: set<Token>,
    inFlight: int,
    rows: map<JobId, Row>,
    expired: set<JobId>,
    used: set<Token>,
    abandoned: set<Token>)

  datatype Step =
    | Enter(i: nat)
    | Grant(i: nat, id: JobId, token: Token)
    | GrantReplyLost(i: nat, id: JobId, token: Token)
    | Refuse(i: nat)
    | Record(i: nat)
    | Leave(i: nat)
    | Settle(i: nat, verdict: Verdict, extracting: bool)
    | SettleSend(i: nat, how: Outcome)
    | SettleFails(i: nat, landed: bool)
    | Finish(i: nat)
    | Enqueue(id: JobId, row: Row)
    | Expire(id: JobId)
    | Reap(id: JobId)
    | Release(tokens: set<Token>)

  predicate InWindow(t: Thread) {
    t.Claiming? || t.Granted? || t.NoJob?
  }

  function Window(s: State): set<nat> {
    set i | 0 <= i < |s.threads| && InWindow(s.threads[i])
  }

  /** Every lease the database has out. */
  ghost predicate Outstanding(s: State, t: Token) {
    exists id :: id in s.rows && s.rows[id].lease == Some(t)
  }

  predicate CanClaim(s: State, id: JobId) {
    id in s.rows && s.rows[id].attempts < s.rows[id].maxAttempts && (s.rows[id].lease.None? || id in s.expired)
  }

  predicate Enabled(s: State, step: Step) {
    match step
    case Enter(i) => i < |s.threads| && s.threads[i].Idle?
    case Grant(i, id, t) => i < |s.threads| && s.threads[i].Claiming? && CanClaim(s, id) && t !in s.used
    case GrantReplyLost(i, id, t) => i < |s.threads| && s.threads[i].Claiming? && CanClaim(s, id) && t !in s.used
    case Refuse(i) => i < |s.threads| && s.threads[i].Claiming?
    case Record(i) => i < |s.threads| && s.threads[i].Granted?
    case Leave(i) => i < |s.threads| && s.threads[i].NoJob?
    case Settle(i, _, _) =>
      i < |s.threads| && s.threads[i].Running? && s.threads[i].id in s.rows && s.threads[i].job.kind != SendOutbound
    case SettleSend(i, how) =>
      && i < |s.threads| && s.threads[i].Running? && s.threads[i].id in s.rows && s.threads[i].job.kind == SendOutbound
      && (how == Done || how == Retried || how == InvalidContext)
    case SettleFails(i, _) => i < |s.threads| && s.threads[i].Running? && s.threads[i].id in s.rows
    case Finish(i) => i < |s.threads| && s.threads[i].Finishing?
    case Enqueue(id, row) => id !in s.rows && row.lease.None?
    case Expire(id) => id in s.rows
    case Reap(id) => id in s.rows && id in s.expired && s.rows[id].attempts == s.rows[id].maxAttempts
    case Release(_) => true
  }

  function Move(s: State, i: nat, t: Thread): State
    requires i < |s.threads|
  {
    s.(threads := s.threads[i := t])
  }

  /** The claim's one statement: a new token, one more attempt, a lease that has not lapsed. */
  function Lease(s: State, id: JobId, t: Token): State
    requires id in s.rows
  {
    s.(rows := s.rows[id := s.rows[id].(lease := Some(t), attempts := s.rows[id].attempts + 1)],
       expired := s.expired - {id}, used := s.used + {t})
  }

  function ClaimedFrom(row: Row, t: Token): Claimed {
    Claimed(row.kind, row.run, t)
  }

  function Released(rows: map<JobId, Row>, tokens: set<Token>): map<JobId, Row> {
    map id | id in rows :: if rows[id].lease.Some? && rows[id].lease.value in tokens then Freed(rows[id]) else rows[id]
  }

  function Apply(s: State, step: Step): State
    requires Enabled(s, step)
  {
    match step
    case Enter(i) => Move(s, i, Claiming).(inFlight := s.inFlight + 1)
    case Grant(i, id, t) => Lease(Move(s, i, Granted(id, ClaimedFrom(s.rows[id], t))), id, t)
    case GrantReplyLost(i, id, t) => Lease(Move(s, i, NoJob), id, t).(abandoned := s.abandoned + {t})
    case Refuse(i) => Move(s, i, NoJob)
    case Record(i) =>
      var th := s.threads[i];
      Move(s, i, Running(th.id, th.job)).(held := s.held + {th.job.token}, inFlight := s.inFlight - 1)
    case Leave(i) => Move(s, i, Idle).(inFlight := s.inFlight - 1)
    case Settle(i, verdict, extracting) =>
      var th := s.threads[i];
      var (row, outcome) := SettlePipeline(s.rows[th.id], th.job, verdict, extracting);
      var gone := LeaseIsSettled(th.job.kind, outcome);
      Move(s, i, Finishing(th.job, gone)).(
        rows := s.rows[th.id := row],
        abandoned := if gone && row.lease == Some(th.job.token) then s.abandoned + {th.job.token} else s.abandoned)
    case SettleSend(i, how) =>
      var th := s.threads[i];
      var (row, outcome) := SettleSendRow(s.rows[th.id], th.job, how);
      Move(s, i, Finishing(th.job, LeaseIsSettled(th.job.kind, outcome))).(rows := s.rows[th.id := row])
    case SettleFails(i, landed) =>
      // The exception keeps the token, whether or not the write had landed when the reply was lost.
      var th := s.threads[i];
      var row := s.rows[th.id];
      Move(s, i, Finishing(th.job, false)).(
        rows := s.rows[th.id := if landed && row.lease == Some(th.job.token) then Freed(row) else row])
    case Finish(i) =>
      var th := s.threads[i];
      Move(s, i, Idle).(held := if th.settled then s.held - {th.job.token} else s.held)
    case Enqueue(id, row) => s.(rows := s.rows[id := row])
    case Expire(id) => s.(expired := s.expired + {id})
    case Reap(id) => s.(rows := s.rows[id := Freed(s.rows[id])])
    case Release(tokens) => s.(rows := Released(s.rows, tokens))
  }

  // ---------------------------------------------------------------------------------------------
  // The ledger invariant
  // ---------------------------------------------------------------------------------------------

  ghost predicate CountInv(s: State) {
    s.inFlight == |Window(s)|
  }

  /** Tokens are fresh when issued and name one row each. */
  ghost predicate RowTokens(s: State) {
    && (forall id | id in s.rows && s.rows[id].lease.Some? :: s.rows[id].lease.value in s.used)
    && (forall a, b | a in s.rows && b in s.rows && s.rows[a].lease.Some? && s.rows[a].lease == s.rows[b].lease :: a == b)
  }

  /** A thread's token was issued, and while it runs the job no other row carries it. */
  ghost predicate ThreadTokens(s: State) {
    && (forall i | 0 <= i < |s.threads| && HasJob(s.threads[i]) :: s.threads[i].job.token in s.used)
    && (forall i, id | 0 <= i < |s.threads| && HasJob(s.threads[i]) && !s.threads[i].Finishing? && id in s.rows
          && s.rows[id].lease == Some(s.threads[i].job.token) :: id == s.threads[i].id)
  }

  predicate HasJob(t: Thread) {
    t.Granted? || t.Running? || t.Finishing?
  }

  ghost predicate TokenInv(s: State) {
    RowTokens(s) && ThreadTokens(s)
  }

  ghost predicate InHand(s: State, t: Token) {
    exists i :: 0 <= i < |s.threads| && s.threads[i].Granted? && s.threads[i].job.token == t
  }

  /** A thread about to forget its token is right to: the lease is gone, or was abandoned. */
  ghost predicate ForgetInv(s: State) {
    forall i | 0 <= i < |s.threads| && s.threads[i].Finishing? && s.threads[i].settled ::
      Outstanding(s, s.threads[i].job.token) ==> s.threads[i].job.token in s.abandoned
  }

  ghost predicate LeaseInv(s: State) {
    forall t | Outstanding(s, t) :: t in s.held || InHand(s, t) || t in s.abandoned
  }

  ghost predicate Inv(s: State) {
    CountInv(s) && TokenInv(s) && ForgetInv(s) && LeaseInv(s)
  }

  /** Moving one thread changes the window by at most that thread. */
  lemma WindowMoves(s: State, i: nat, after: State)
    requires i < |s.threads| && |after.threads| == |s.threads|
    requires forall k | 0 <= k < |s.threads| && k != i :: after.threads[k] == s.threads[k]
    ensures |Window(after)| ==
            |Window(s)| + (if InWindow(after.threads[i]) then 1 else 0) - (if InWindow(s.threads[i]) then 1 else 0)
  {
    var a, b := Window(s), Window(after);
    forall k ensures k in a - {i} <==> k in b - {i} {
      if k != i && 0 <= k < |s.threads| {
        assert after.threads[k] == s.threads[k];
      }
    }
    assert a - {i} == b - {i};
    SizeWithout(a, i);
    SizeWithout(b, i);
  }

  lemma SizeWithout(a: set<nat>, i: nat)
    ensures |a - {i}| == |a| - if i in a then 1 else 0
  {
    if i !in a {
      assert a - {i} == a;
    }
  }

  predicate ThreadStep(step: Step) {
    !step.Enqueue? && !step.Expire? && !step.Reap? && !step.Release?
  }

  lemma CountStep(s: State, step: Step)
    requires CountInv(s) && Enabled(s, step)
    ensures CountInv(Apply(s, step))
  {
    hide SettlePipeline, SettleSendRow, LeaseIsSettled, Released, ClaimedFrom, CanClaim, Window;
    var t := Apply(s, step);
    if ThreadStep(step) {
      if InWindow(s.threads[step.i]) {
        WindowHolds(s, step.i);
      }
      WindowMoves(s, step.i, t);
    } else {
      SameWindow(s, t);
    }
  }

  lemma WindowHolds(s: State, i: nat)
    requires i < |s.threads| && InWindow(s.threads[i])
    ensures |Window(s)| > 0
  {
    assert i in Window(s);
  }

  lemma SameWindow(s: State, t: State)
    requires s.threads == t.threads
    ensures Window(s) == Window(t)
  {
  }

  /** What a step may do to the rows: leave a lease, free it, or, for a claim, issue a new token. */
  ghost predicate RowsFollow(s: State, step: Step, after: State) {
    && s.used <= after.used
    && forall id | id in after.rows && after.rows[id].lease.Some? ::
         || (id in s.rows && after.rows[id].lease == s.rows[id].lease)
         || (NewToken(step, id, after.rows[id].lease.value) && after.rows[id].lease.value !in s.used
             && after.rows[id].lease.value in after.used)
  }

  predicate NewToken(step: Step, id: JobId, t: Token) {
    (step.Grant? || step.GrantReplyLost?) && step.id == id && step.token == t
  }

  lemma RowsDoFollow(s: State, step: Step)
    requires Enabled(s, step)
    ensures RowsFollow(s, step, Apply(s, step))
  {
    hide LeaseIsSettled, CanClaim;
    if step.Settle? {
      ForgetsALiveLeaseExactly(s.rows[s.threads[step.i].id], s.threads[step.i].job, step.verdict, step.extracting);
      hide SettlePipeline;
    }
  }

  lemma TokenStep(s: State, step: Step)
    requires TokenInv(s) && Enabled(s, step)
    ensures TokenInv(Apply(s, step))
  {
    RowsDoFollow(s, step);
    var after := Apply(s, step);
    assert RowTokens(after) by {
      hide Apply, Enabled, ThreadTokens;
    }
    ThreadStepTokens(s, step);
  }

  lemma ThreadStepTokens(s: State, step: Step)
    requires TokenInv(s) && Enabled(s, step) && RowsFollow(s, step, Apply(s, step))
    ensures ThreadTokens(Apply(s, step))
  {
    hide SettlePipeline, SettleSendRow, LeaseIsSettled, CanClaim, Released;
    var after := Apply(s, step);
    forall i | 0 <= i < |after.threads| && HasJob(after.threads[i])
      ensures after.threads[i].job.token in after.used
      ensures forall id | !after.threads[i].Finishing? && id in after.rows
                && after.rows[id].lease == Some(after.threads[i].job.token) :: id == after.threads[i].id
    {
      if !(step.Grant? && step.i == i) {
        assert HasJob(s.threads[i]) && s.threads[i].job == after.threads[i].job;
      }
    }
  }

  /** No step but a claim puts a lease out, and a claim's is new. */
  lemma OnlyClaimsLease(s: State, step: Step, t: Token)
    requires TokenInv(s) && Enabled(s, step) && Outstanding(Apply(s, step), t)
    ensures Outstanding(s, t) || ((step.Grant? || step.GrantReplyLost?) && t == step.token)
  {
    var after := Apply(s, step);
    var id :| id in after.rows && after.rows[id].lease == Some(t);
    if step.Settle? {
      ForgetsALiveLeaseExactly(s.rows[s.threads[step.i].id], s.threads[step.i].job, step.verdict, step.extracting);
    }
    if id in s.rows && s.rows[id].lease == Some(t) {
      assert Outstanding(s, t);
    }
  }

  lemma ForgetStep(s: State, step: Step)
    requires TokenInv(s) && ForgetInv(s) && Enabled(s, step)
    ensures ForgetInv(Apply(s, step))
  {
    var after := Apply(s, step);
    forall i | 0 <= i < |after.threads| && after.threads[i].Finishing? && after.threads[i].settled
               && Outstanding(after, after.threads[i].job.token)
      ensures after.threads[i].job.token in after.abandoned
    {
      var t := after.threads[i].job.token;
      OnlyClaimsLease(s, step, t);
      if s.threads[i] != after.threads[i] {
        JustSettled(s, step, i);
      }
    }
  }

  /** The thread that settled in this step: its lease is gone from the only row that carried it. */
  lemma JustSettled(s: State, step: Step, i: nat)
    requires TokenInv(s) && Enabled(s, step) && i < |s.threads| && s.threads[i] != Apply(s, step).threads[i]
    requires Apply(s, step).threads[i].Finishing? && Apply(s, step).threads[i].settled
    ensures var t := Apply(s, step).threads[i].job.token; Outstanding(Apply(s, step), t) ==> t in Apply(s, step).abandoned
  {
    var after := Apply(s, step);
    var th := s.threads[i];
    var t := th.job.token;
    assert step.i == i && th.Running?;
    if step.Settle? {
      ForgetsALiveLeaseExactly(s.rows[th.id], th.job, step.verdict, step.extracting);
    }
    if Outstanding(after, t) {
      var id :| id in after.rows && after.rows[id].lease == Some(t);
    }
  }

  lemma LeaseStep(s: State, step: Step)
    requires TokenInv(s) && ForgetInv(s) && LeaseInv(s) && Enabled(s, step)
    ensures LeaseInv(Apply(s, step))
  {
    var after := Apply(s, step);
    forall t | Outstanding(after, t) ensures t in after.held || InHand(after, t) || t in after.abandoned {
      OnlyClaimsLease(s, step, t);
      if Outstanding(s, t) {
        if InHand(s, t) && t !in s.held && t !in s.abandoned {
          var i :| 0 <= i < |s.threads| && s.threads[i].Granted? && s.threads[i].job.token == t;
          if after.threads[i].Granted? {
            assert after.threads[i].job.token == t;
          }
        }
      } else if step.Grant? {
        assert after.threads[step.i].Granted?;
      }
    }
  }

  lemma InvStep(s: State, step: Step)
    requires Inv(s) && Enabled(s, step)
    ensures Inv(Apply(s, step))
  {
    CountStep(s, step);
    TokenStep(s, step);
    ForgetStep(s, step);
    LeaseStep(s, step);
  }

  // ---------------------------------------------------------------------------------------------
  // Runs
  // ---------------------------------------------------------------------------------------------

  ghost predicate NothingLeased(rows: map<JobId, Row>) {
    forall id | id in rows :: rows[id].lease.None?
  }

  function Boot(n: nat, rows: map<JobId, Row>): State {
    State(seq(n, _ => Idle), {}, 0, rows, {}, {}, {})
  }

  /** The two ways a live lease can drop out of the process's sight. */
  datatype Faults = Faults(lostReplies: bool, strandedLeases: bool)

  predicate Permitted(s: State, step: Step, f: Faults)
    requires Enabled(s, step)
  {
    && (step.GrantReplyLost? ==> f.lostReplies)
    && (step.Settle? && StrandsTheLease(s.rows[s.threads[step.i].id], s.threads[step.i].job, step.verdict, step.extracting)
        ==> f.strandedLeases)
  }

  predicate Runs(s: State, steps: seq<Step>, f: Faults)
    decreases |steps|
  {
    steps == [] || (Enabled(s, steps[0]) && Permitted(s, steps[0], f) && Runs(Apply(s, steps[0]), steps[1..], f))
  }

  function End(s: State, steps: seq<Step>, f: Faults): State
    requires Runs(s, steps, f)
    decreases |steps|
  {
    if steps == [] then s else End(Apply(s, steps[0]), steps[1..], f)
  }

  lemma BootInv(n: nat, rows: map<JobId, Row>)
    requires NothingLeased(rows)
    ensures Inv(Boot(n, rows))
  {
    assert Window(Boot(n, rows)) == {};
  }

  lemma {:induction false} EveryRunKeepsInv(s: State, steps: seq<Step>, f: Faults)
    requires Inv(s) && Runs(s, steps, f)
    ensures Inv(End(s, steps, f))
    decreases |steps|
  {
    hide Inv;
    if steps != [] {
      InvStep(s, steps[0]);
      EveryRunKeepsInv(Apply(s, steps[0]), steps[1..], f);
    }
  }

  /**
    Under every interleaving, with failed and fenced settlements, lost replies, expiries and
    shutdown releases: the counter is the number of threads in the claim window, and every lease
    out is held, in a thread's hand inside the window, or abandoned.
   */
  lemma EveryLeaseIsAccountedFor(n: nat, rows: map<JobId, Row>, steps: seq<Step>, f: Faults)
    requires NothingLeased(rows) && Runs(Boot(n, rows), steps, f)
    ensures var s := End(Boot(n, rows), steps, f);
      && s.inFlight == |Window(s)|
      && forall t | Outstanding(s, t) :: t in s.held || InHand(s, t) || t in s.abandoned
  {
    BootInv(n, rows);
    EveryRunKeepsInv(Boot(n, rows), steps, f);
  }

  /** The snapshot of a process with no claim in flight misses no lease but an abandoned one. */
  lemma SnapshotMissesOnlyAbandoned(s: State, t: Token)
    requires Inv(s) && s.inFlight == 0 && Outstanding(s, t)
    ensures t in s.held || t in s.abandoned
  {
    if InHand(s, t) {
      var i :| 0 <= i < |s.threads| && s.threads[i].Granted? && s.threads[i].job.token == t;
      WindowHolds(s, i);
    }
  }

  /** Releasing what a snapshot lists frees exactly those leases: afterwards none is out but the abandoned ones. */
  lemma ReleaseLeavesOnlyAbandoned(s: State, t: Token)
    requires Inv(s) && s.inFlight == 0
    ensures var after := Apply(s, Release(s.held));
      && (Outstanding(after, t) <==> Outstanding(s, t) && t !in s.held)
      && (Outstanding(after, t) ==> t in s.abandoned)
  {
    var after := Apply(s, Release(s.held));
    if Outstanding(s, t) {
      SnapshotMissesOnlyAbandoned(s, t);
      var id :| id in s.rows && s.rows[id].lease == Some(t);
      assert t !in s.held ==> after.rows[id] == s.rows[id];
    }
    if Outstanding(after, t) {
      var id :| id in after.rows && after.rows[id].lease == Some(t);
      assert s.rows[id].lease == Some(t);
    }
  }

  /** A leased job has not been tried more often than it may be. */
  ghost predicate AttemptsKept(s: State) {
    forall id <- s.rows :: s.rows[id].lease.Some? ==> s.rows[id].attempts <= s.rows[id].maxAttempts
  }

  lemma AttemptsStep(s: State, step: Step)
    requires AttemptsKept(s) && Enabled(s, step)
    ensures AttemptsKept(Apply(s, step))
  {
  }

  lemma {:induction false} AttemptsRun(s: State, steps: seq<Step>, f: Faults)
    requires AttemptsKept(s) && Runs(s, steps, f)
    ensures AttemptsKept(End(s, steps, f))
    decreases |steps|
  {
    hide AttemptsKept, Apply, Enabled;
    if steps != [] {
      AttemptsStep(s, steps[0]);
      AttemptsRun(Apply(s, steps[0]), steps[1..], f);
    }
  }

  /** Over every run a lease that has lapsed is never stuck: any thread at its claim can take the job over, or the reaper can bury it. */
  lemma NoLapsedLeaseIsStuck(n: nat, rows: map<JobId, Row>, steps: seq<Step>, f: Faults, id: JobId, i: nat, t: Token)
    requires NothingLeased(rows) && Runs(Boot(n, rows), steps, f)
    requires var s := End(Boot(n, rows), steps, f);
      && id in s.rows && id in s.expired && s.rows[id].lease.Some?
      && i < |s.threads| && s.threads[i].Claiming? && t !in s.used
    ensures var s := End(Boot(n, rows), steps, f);
      if s.rows[id].attempts < s.rows[id].maxAttempts then Enabled(s, Grant(i, id, t))
      else Enabled(s, Reap(id)) && Apply(s, Reap(id)).rows[id].lease == None
  {
    AttemptsRun(Boot(n, rows), steps, f);
  }

  /** A snapshot that gave up waiting misses at most one further lease per claim still in flight. */
  lemma TimedOutSnapshotMissesFew(s: State, missed: set<Token>)
    requires Inv(s) && forall t <- missed :: Outstanding(s, t) && t !in s.held && t !in s.abandoned
    ensures |missed| <= s.inFlight
  {
    var carriers := set i | i in Window(s) && s.threads[i].Granted?;
    var tokens := set i | i in carriers :: s.threads[i].job.token;
    forall t <- missed ensures t in tokens {
      var i :| 0 <= i < |s.threads| && s.threads[i].Granted? && s.threads[i].job.token == t;
      assert i in carriers;
    }
    ImageSize(s, carriers);
    SubsetSize(missed, tokens);
    SubsetSize(carriers, Window(s));
  }

  lemma {:induction false} ImageSize(s: State, carriers: set<nat>)
    requires forall i <- carriers :: i < |s.threads| && s.threads[i].Granted?
    ensures |set i | i in carriers :: s.threads[i].job.token| <= |carriers|
  {
    var tokens := set i | i in carriers :: s.threads[i].job.token;
    if carriers != {} {
      var k :| k in carriers;
      ImageSize(s, carriers - {k});
      var fewer := set i | i in carriers - {k} :: s.threads[i].job.token;
      assert tokens == fewer + {s.threads[k].job.token};
    }
  }

  // ---------------------------------------------------------------------------------------------
  // Exactly when the zero-count snapshot is complete
  // ---------------------------------------------------------------------------------------------

  ghost predicate SnapshotComplete(s: State) {
    s.inFlight == 0 ==> forall t | Outstanding(s, t) :: t in s.held
  }

  ghost predicate AlwaysComplete(f: Faults) {
    forall n: nat, rows: map<JobId, Row>, steps: seq<Step> ::
      NothingLeased(rows) && Runs(Boot(n, rows), steps, f) ==> SnapshotComplete(End(Boot(n, rows), steps, f))
  }

  lemma {:induction false} NothingAbandoned(s: State, steps: seq<Step>)
    requires Runs(s, steps, Faults(false, false)) && s.abandoned == {}
    ensures End(s, steps, Faults(false, false)).abandoned == {}
    decreases |steps|
  {
    if steps != [] {
      NoFaultNoLoss(s, steps[0]);
      NothingAbandoned(Apply(s, steps[0]), steps[1..]);
    }
  }

  lemma NoFaultNoLoss(s: State, step: Step)
    requires Enabled(s, step) && Permitted(s, step, Faults(false, false))
    ensures Apply(s, step).abandoned == s.abandoned
  {
    hide StrandsTheLease, LeaseIsSettled, SettlePipeline, CanClaim;
    if step.Settle? {
      ForgetsALiveLeaseExactly(s.rows[s.threads[step.i].id], s.threads[step.i].job, step.verdict, step.extracting);
    }
  }

  /** One thread and one pipeline job of a run, with this lease, after this many attempts. */
  function Small(t: Thread, lease: Option<Token>, held: set<Token>, inFlight: int, used: set<Token>, abandoned: set<Token>): State {
    State([t], held, inFlight, map[0 := Row(Pipeline, Some(0), if used == {} then 0 else 1, 5, lease)], {}, used, abandoned)
  }

  const JOB := Claimed(Pipeline, Some(0), 7)

  const QUEUED := Small(Idle, None, {}, 0, {}, {})

  /** The lease is out, the process idle, and the ledger empty. */
  const STRANDED := Small(Idle, Some(7), {}, 0, {7}, {7})

  const LOSE_REPLY: seq<Step> := [Enter(0), GrantReplyLost(0, 0, 7), Leave(0)]

  /** A transient failure of a job whose run has already moved on: fenced, and forgotten. */
  const STRAND: seq<Step> := [Enter(0), Grant(0, 0, 7), Record(0), Settle(0, Retryable, false), Finish(0)]

  lemma Follow(s: State, step: Step, t: State, rest: seq<Step>, f: Faults)
    requires Enabled(s, step) && Permitted(s, step, f) && Apply(s, step) == t
    requires Runs(t, rest, f) && End(t, rest, f) == STRANDED
    ensures Runs(s, [step] + rest, f) && End(s, [step] + rest, f) == STRANDED
  {
    assert ([step] + rest)[1..] == rest;
  }

  lemma LostReplyStrands(f: Faults)
    requires f.lostReplies
    ensures Runs(QUEUED, LOSE_REPLY, f) && End(QUEUED, LOSE_REPLY, f) == STRANDED
  {
    var lost := Small(NoJob, Some(7), {}, 1, {7}, {7});
    var claiming := Small(Claiming, None, {}, 1, {}, {});
    Follow(lost, Leave(0), STRANDED, [], f);
    Follow(claiming, GrantReplyLost(0, 0, 7), lost, [Leave(0)] + [], f);
    Follow(QUEUED, Enter(0), claiming, [GrantReplyLost(0, 0, 7)] + ([Leave(0)] + []), f);
    assert [Enter(0)] + ([GrantReplyLost(0, 0, 7)] + ([Leave(0)] + [])) == LOSE_REPLY;
  }

  lemma FencedSettlementStrands(f: Faults)
    requires f.strandedLeases
    ensures Runs(QUEUED, STRAND, f) && End(QUEUED, STRAND, f) == STRANDED
  {
    hide Runs, End;
    var finishing := Small(Finishing(JOB, true), Some(7), {7}, 0, {7}, {7});
    var running := Small(Running(0, JOB), Some(7), {7}, 0, {7}, {});
    Ends(f);
    Follow(finishing, Finish(0), STRANDED, [], f);
    Follow(running, Settle(0, Retryable, false), finishing, [Finish(0)] + [], f);
    StartsRunning(running, [Settle(0, Retryable, false)] + ([Finish(0)] + []), f);
    assert [Enter(0)] + ([Grant(0, 0, 7)] + ([Record(0)] + ([Settle(0, Retryable, false)] + ([Finish(0)] + [])))) == STRAND;
  }

  lemma Ends(f: Faults)
    ensures Runs(STRANDED, [], f) && End(STRANDED, [], f) == STRANDED
  {
  }

  lemma StartsRunning(running: State, rest: seq<Step>, f: Faults)
    requires running == Small(Running(0, JOB), Some(7), {7}, 0, {7}, {})
    requires Runs(running, rest, f) && End(running, rest, f) == STRANDED
    ensures Runs(QUEUED, [Enter(0)] + ([Grant(0, 0, 7)] + ([Record(0)] + rest)), f)
    ensures End(QUEUED, [Enter(0)] + ([Grant(0, 0, 7)] + ([Record(0)] + rest)), f) == STRANDED
  {
    hide Runs, End;
    var claiming := Small(Claiming, None, {}, 1, {}, {});
    var granted := Small(Granted(0, JOB), Some(7), {}, 1, {7}, {});
    Follow(granted, Record(0), running, rest, f);
    Follow(claiming, Grant(0, 0, 7), granted, [Record(0)] + rest, f);
    Follow(QUEUED, Enter(0), claiming, [Grant(0, 0, 7)] + ([Record(0)] + rest), f);
  }

  /**
    The zero-count snapshot lists every lease out, over all runs, exactly when no claim's reply is
    lost after its commit and no settlement is fenced while the worker still owns the lease.
   */
  lemma SnapshotCompleteExactly(f: Faults)
    ensures AlwaysComplete(f) <==> f == Faults(false, false)
  {
    hide Runs, End, Inv;
    if f == Faults(false, false) {
      forall n: nat, rows: map<JobId, Row>, steps: seq<Step> | NothingLeased(rows) && Runs(Boot(n, rows), steps, f)
        ensures SnapshotComplete(End(Boot(n, rows), steps, f))
      {
        BootInv(n, rows);
        EveryRunKeepsInv(Boot(n, rows), steps, f);
        NothingAbandoned(Boot(n, rows), steps);
        var s := End(Boot(n, rows), steps, f);
        forall t | s.inFlight == 0 && Outstanding(s, t) ensures t in s.held {
          SnapshotMissesOnlyAbandoned(s, t);
        }
      }
    } else {
      var steps := if f.lostReplies then LOSE_REPLY else STRAND;
      if f.lostReplies {
        LostReplyStrands(f);
      } else {
        FencedSettlementStrands(f);
      }
      var rows := QUEUED.rows;
      assert Boot(1, rows).threads == [Idle];
      assert QUEUED == Boot(1, rows);
      assert Outstanding(STRANDED, 7) by {
        assert STRANDED.rows[0].lease == Some(7);
      }
      assert !SnapshotComplete(End(Boot(1, rows), steps, f));
    }
  }
}
