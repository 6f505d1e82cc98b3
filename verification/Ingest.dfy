/**
  Delayed ingest of inbound messages: one transaction inserts the row, links or opens a run, and
  enqueues the work it owes. Deliveries may repeat; everything else about runs changes around it.
*/
module Ingest {
  import opened Prelude
  import opened References

  type RunId = nat
  type BusinessId = nat

  /** A stored message row. Its message id, unique over both directions, is its key. */
  datatype Email =
    | Inbound(sender: string, run: Option<RunId>, consumed: bool)
    | Outbound(owner: RunId, epoch: nat)

  datatype RunRow = RunRow(business: BusinessId, source: string, awaitingReply: bool, epoch: nat)

  /** `matched` records which business the sender belonged to when the job was inserted. */
  datatype Job = RunPipeline(run: RunId, epoch: nat) | ResumeReply(run: RunId, email: string, matched: BusinessId)

  datatype Db = Db(
    emails: map<string, Email>,
    runs: map<RunId, RunRow>,
    runCount: nat,
    senders: map<string, BusinessId>,
    jobs: seq<Job>)

  datatype Message = Message(messageId: string, inReplyTo: Option<string>, references: Option<string>, sender: string)

  datatype Outcome = Duplicate | ReplyCandidate | LateReply | UnknownSender | NewRun

  // ---------------------------------------------------------------------------------------------
  // The transaction
  // ---------------------------------------------------------------------------------------------

  /** The key a job is deduplicated on. */
  predicate SameKey(a: Job, b: Job) {
    match a
    case RunPipeline(run, epoch) => b.RunPipeline? && b.run == run && b.epoch == epoch
    case ResumeReply(run, email, _) => b.ResumeReply? && b.run == run && b.email == email
  }

  function Enqueue(jobs: seq<Job>, job: Job): seq<Job> {
    if exists j <- jobs :: SameKey(j, job) then jobs else jobs + [job]
  }

  /** Enqueues the resume of a run that awaits a reply, when the row's sender belongs to the run's business. */
  function AuthorizedReplyJob(db: Db, email: string, sender: string, run: RunId): Db {
    if run in db.runs && db.runs[run].awaitingReply && sender in db.senders && db.senders[sender] == db.runs[run].business
    then db.(jobs := Enqueue(db.jobs, ResumeReply(run, email, db.senders[sender])))
    else db
  }

  /** Outbound rows the headers name, whole ids only. */
  predicate Names(m: Message, outboundId: string) {
    HeaderMatch(outboundId, m.inReplyTo, m.references)
  }

  function AwaitingFor(db: Db, m: Message): set<RunId> {
    set id | id in db.emails && db.emails[id].Outbound? && Names(m, id)
             && db.emails[id].owner in db.runs && db.runs[db.emails[id].owner].awaitingReply
             && db.emails[id].epoch == db.runs[db.emails[id].owner].epoch :: db.emails[id].owner
  }

  function AnyFor(db: Db, m: Message): set<RunId> {
    set id | id in db.emails && db.emails[id].Outbound? && Names(m, id) && db.emails[id].owner in db.runs :: db.emails[id].owner
  }

  predicate HasHeaders(m: Message) {
    (m.inReplyTo.Some? && m.inReplyTo.value != "") || (m.references.Some? && m.references.value != "")
  }

  /** The row the database happens to return first among those that match. */
  predicate PickOf(candidates: set<RunId>, pick: Option<RunId>) {
    if candidates == {} then pick == None else pick.Some? && pick.value in candidates
  }

  /** What the two header lookups return. */
  predicate Lookups(db: Db, m: Message, awaiting: Option<RunId>, late: Option<RunId>) {
    PickOf(AwaitingFor(db, m), awaiting) && PickOf(AnyFor(db, m), late)
  }

  /** A new run for the sender's business, with its one initial pipeline job. */
  function Opened(db: Db, source: string, business: BusinessId): Db {
    db.(runs := db.runs[db.runCount := RunRow(business, source, false, 0)], runCount := db.runCount + 1,
        jobs := Enqueue(db.jobs, RunPipeline(db.runCount, 0)))
  }

  function Ingested(db: Db, m: Message, awaiting: Option<RunId>, late: Option<RunId>): (Db, Outcome) {
    if m.messageId in db.emails then
      var row := db.emails[m.messageId];
      if row.Inbound? && !row.consumed && row.run.Some?
      then (AuthorizedReplyJob(db, m.messageId, row.sender, row.run.value), Duplicate)
      else (db, Duplicate)
    else if HasHeaders(m) && awaiting.Some? then
      var linked := db.(emails := db.emails[m.messageId := Inbound(m.sender, awaiting, false)]);
      (AuthorizedReplyJob(linked, m.messageId, m.sender, awaiting.value), ReplyCandidate)
    else if HasHeaders(m) && late.Some? then
      (db.(emails := db.emails[m.messageId := Inbound(m.sender, late, false)]), LateReply)
    else
      var stored := db.(emails := db.emails[m.messageId := Inbound(m.sender, None, false)]);
      if m.sender !in db.senders then (stored, UnknownSender)
      else
        (Opened(stored, m.messageId, db.senders[m.sender]), NewRun)
  }

  // ---------------------------------------------------------------------------------------------
  // Histories
  // ---------------------------------------------------------------------------------------------

  datatype Step =
    | Deliver(m: Message, awaiting: Option<RunId>, late: Option<RunId>)
    | SendOut(messageId: string, run: RunId)
    | SetAwaiting(run: RunId, waits: bool)
    | Consume(messageId: string)
    | Retrigger(run: RunId)
    | SetSenders(senders: map<string, BusinessId>)

  predicate Enabled(db: Db, step: Step) {
    match step
    case Deliver(m, awaiting, late) => Lookups(db, m, awaiting, late)
    case SendOut(id, run) => id !in db.emails && run in db.runs
    case SetAwaiting(run, _) => run in db.runs
    case Consume(id) => id in db.emails && db.emails[id].Inbound?
    case Retrigger(run) => run in db.runs
    case SetSenders(_) => true
  }

  function Apply(db: Db, step: Step): Db
    requires Enabled(db, step)
  {
    match step
    case Deliver(m, awaiting, late) => Ingested(db, m, awaiting, late).0
    case SendOut(id, run) => db.(emails := db.emails[id := Outbound(run, db.runs[run].epoch)])
    case SetAwaiting(run, waits) => db.(runs := db.runs[run := db.runs[run].(awaitingReply := waits)])
    case Consume(id) => db.(emails := db.emails[id := db.emails[id].(consumed := true)])
    case Retrigger(run) =>
      var epoch := db.runs[run].epoch + 1;
      db.(runs := db.runs[run := db.runs[run].(awaitingReply := false, epoch := epoch)],
          jobs := Enqueue(db.jobs, RunPipeline(run, epoch)))
    case SetSenders(senders) => db.(senders := senders)
  }

  const EMPTY := Db(map[], map[], 0, map[], [])

  predicate Runs(db: Db, steps: seq<Step>)
    decreases |steps|
  {
    steps == [] || (Enabled(db, steps[0]) && Runs(Apply(db, steps[0]), steps[1..]))
  }

  function End(db: Db, steps: seq<Step>): Db
    requires Runs(db, steps)
    decreases |steps|
  {
    if steps == [] then db else End(Apply(db, steps[0]), steps[1..])
  }

  /** A resume job names an inbound row linked to its run, whose sender belonged to the run's business. */
  ghost predicate GoodJob(db: Db, j: Job) {
    && j.run in db.runs
    && match j
       case RunPipeline(_, _) => true
       case ResumeReply(run, email, matched) =>
         email in db.emails && db.emails[email].Inbound? && db.emails[email].run == Some(run) && matched == db.runs[run].business
  }

  ghost predicate SourcesOk(db: Db) {
    && (forall r <- db.runs :: r < db.runCount && db.runs[r].source in db.emails && db.emails[db.runs[r].source].Inbound?)
    && (forall r <- db.runs, q <- db.runs :: db.runs[r].source == db.runs[q].source ==> r == q)
  }

  ghost predicate JobsOk(db: Db) {
    && (forall j <- db.jobs :: GoodJob(db, j))
    && (forall r <- db.runs :: RunPipeline(r, 0) in db.jobs)
    && (forall a, b | 0 <= a < b < |db.jobs| :: !SameKey(db.jobs[a], db.jobs[b]))
  }

  ghost predicate Inv(db: Db) {
    SourcesOk(db) && JobsOk(db)
  }

  /** Rows stay, keep sender and link, and runs keep business and source. */
  ghost predicate Kept(a: Db, b: Db) {
    && (forall id <- a.emails :: id in b.emails && (a.emails[id].Inbound? ==>
          b.emails[id].Inbound? && b.emails[id].sender == a.emails[id].sender && b.emails[id].run == a.emails[id].run))
    && (forall r <- a.runs :: r in b.runs && b.runs[r].business == a.runs[r].business && b.runs[r].source == a.runs[r].source)
    && a.jobs <= b.jobs
  }

  lemma EnqueueKeeps(db: Db, job: Job)
    requires JobsOk(db) && GoodJob(db, job)
    ensures JobsOk(db.(jobs := Enqueue(db.jobs, job))) && db.jobs <= Enqueue(db.jobs, job)
    ensures job.RunPipeline? ==> job in Enqueue(db.jobs, job)
  {
    var after := db.(jobs := Enqueue(db.jobs, job));
    forall j | j in after.jobs ensures GoodJob(after, j) {
      assert GoodJob(db, j);
    }
  }

  /** Facts about jobs survive any change that keeps rows, links, businesses and jobs. */
  lemma JobsSurvive(db: Db, after: Db)
    requires JobsOk(db) && Kept(db, after) && after.jobs == db.jobs && after.runs.Keys == db.runs.Keys
    ensures JobsOk(after)
  {
    forall j | j in after.jobs ensures GoodJob(after, j) {
      assert GoodJob(db, j);
    }
  }

  lemma AuthorizedKeeps(db: Db, email: string, sender: string, run: RunId)
    requires Inv(db) && email in db.emails && db.emails[email].Inbound? && db.emails[email].run == Some(run)
    ensures var after := AuthorizedReplyJob(db, email, sender, run);
      Inv(after) && Kept(db, after) && after.emails == db.emails && after.runs == db.runs
  {
    var after := AuthorizedReplyJob(db, email, sender, run);
    if after != db {
      EnqueueKeeps(db, ResumeReply(run, email, db.senders[sender]));
    }
  }

  /** Storing a new inbound row disturbs nothing. */
  lemma StoreKeeps(db: Db, id: string, row: Email)
    requires Inv(db) && id !in db.emails
    ensures var after := db.(emails := db.emails[id := row]); Inv(after) && Kept(db, after)
  {
    JobsSurvive(db, db.(emails := db.emails[id := row]));
  }

  lemma OpenKeeps(db: Db, source: string, business: BusinessId)
    requires Inv(db) && source in db.emails && db.emails[source].Inbound? && forall r <- db.runs :: db.runs[r].source != source
    ensures Inv(Opened(db, source, business)) && Kept(db, Opened(db, source, business))
  {
    var job := RunPipeline(db.runCount, 0);
    assert forall j <- db.jobs :: !SameKey(j, job) by {
      assert forall j <- db.jobs :: GoodJob(db, j);
    }
    assert Opened(db, source, business).jobs == db.jobs + [job];
    SourcesOpened(db, source, business);
    JobsOpened(db, source, business);
  }

  lemma SourcesOpened(db: Db, source: string, business: BusinessId)
    requires SourcesOk(db) && source in db.emails && db.emails[source].Inbound? && forall r <- db.runs :: db.runs[r].source != source
    ensures SourcesOk(Opened(db, source, business))
  {
    hide Enqueue;
  }

  lemma JobsOpened(db: Db, source: string, business: BusinessId)
    requires JobsOk(db) && db.runCount !in db.runs
    requires forall j <- db.jobs :: !SameKey(j, RunPipeline(db.runCount, 0))
    requires Opened(db, source, business).jobs == db.jobs + [RunPipeline(db.runCount, 0)]
    ensures JobsOk(Opened(db, source, business))
  {
    hide Enqueue;
    var after, job := Opened(db, source, business), RunPipeline(db.runCount, 0);
    forall j | j in after.jobs ensures GoodJob(after, j) {
      assert j == job || GoodJob(db, j);
    }
  }

  lemma DeliverStep(db: Db, m: Message, awaiting: Option<RunId>, late: Option<RunId>)
    requires Inv(db) && Lookups(db, m, awaiting, late)
    ensures Inv(Ingested(db, m, awaiting, late).0) && Kept(db, Ingested(db, m, awaiting, late).0)
  {
    hide Inv, Kept, AuthorizedReplyJob, Lookups, HasHeaders;
    if m.messageId in db.emails {
      KeptItself(db);
      var row := db.emails[m.messageId];
      if row.Inbound? && row.run.Some? {
        AuthorizedKeeps(db, m.messageId, row.sender, row.run.value);
      }
    } else if HasHeaders(m) && awaiting.Some? {
      var linked := db.(emails := db.emails[m.messageId := Inbound(m.sender, awaiting, false)]);
      StoreKeeps(db, m.messageId, Inbound(m.sender, awaiting, false));
      AuthorizedKeeps(linked, m.messageId, m.sender, awaiting.value);
      KeptChain(db, linked, AuthorizedReplyJob(linked, m.messageId, m.sender, awaiting.value));
    } else if HasHeaders(m) && late.Some? {
      StoreKeeps(db, m.messageId, Inbound(m.sender, late, false));
    } else {
      var row := Inbound(m.sender, None, false);
      var stored := db.(emails := db.emails[m.messageId := row]);
      StoreKeeps(db, m.messageId, row);
      if m.sender in db.senders {
        NoRunFrom(db, m.messageId);
        OpenKeeps(stored, m.messageId, db.senders[m.sender]);
        KeptChain(db, stored, Ingested(db, m, awaiting, late).0);
      }
    }
  }

  /** A message not yet stored is the source of no run. */
  lemma NoRunFrom(db: Db, id: string)
    requires Inv(db) && id !in db.emails
    ensures forall r <- db.runs :: db.runs[r].source != id
  {
  }

  lemma KeptItself(db: Db)
    ensures Kept(db, db)
  {
  }

  lemma KeptChain(a: Db, b: Db, c: Db)
    requires Kept(a, b) && Kept(b, c)
    ensures Kept(a, c)
  {
  }

  lemma InvStep(db: Db, step: Step)
    requires Inv(db) && Enabled(db, step)
    ensures Inv(Apply(db, step)) && Kept(db, Apply(db, step))
  {
    hide Inv, Ingested, Lookups;
    match step
    case Deliver(m, awaiting, late) => DeliverStep(db, m, awaiting, late);
    case SendOut(id, run) => StoreKeeps(db, id, Outbound(run, db.runs[run].epoch));
    case SetAwaiting(_, _) => ColumnsKeep(db, Apply(db, step));
    case Consume(_) => ColumnsKeep(db, Apply(db, step));
    case Retrigger(run) =>
      var epoch := db.runs[run].epoch + 1;
      var cleared := db.(runs := db.runs[run := db.runs[run].(awaitingReply := false, epoch := epoch)]);
      ColumnsKeep(db, cleared);
      RestartKeeps(cleared, run, epoch);
    case SetSenders(senders) => ColumnsKeep(db, db.(senders := senders));
  }

  /** A change of columns that keeps every row, link, source and business keeps the invariant. */
  lemma ColumnsKeep(db: Db, after: Db)
    requires Inv(db) && Kept(db, after) && after.jobs == db.jobs && after.runs.Keys == db.runs.Keys && after.runCount == db.runCount
    ensures Inv(after)
  {
    JobsSurvive(db, after);
  }

  lemma RestartKeeps(db: Db, run: RunId, epoch: nat)
    requires Inv(db) && run in db.runs
    ensures var after := db.(jobs := Enqueue(db.jobs, RunPipeline(run, epoch))); Inv(after) && Kept(db, after)
  {
    EnqueueKeeps(db, RunPipeline(run, epoch));
  }

  lemma {:induction false} EveryHistoryKeepsInv(db: Db, steps: seq<Step>)
    requires Inv(db) && Runs(db, steps)
    ensures Inv(End(db, steps)) && Kept(db, End(db, steps))
    decreases |steps|
  {
    hide Inv, Kept, Apply, Enabled;
    if steps == [] {
      KeptItself(db);
    } else {
      InvStep(db, steps[0]);
      EveryHistoryKeepsInv(Apply(db, steps[0]), steps[1..]);
      KeptChain(db, Apply(db, steps[0]), End(db, steps));
    }
  }

  /**
    Over any history of deliveries, redeliveries, sends, resumes, restarts and sender changes: a
    message is the source of at most one run, every run has exactly one initial pipeline job, and
    every resume job names an inbound row of its own run from a sender of that run's business.
   */
  lemma IngestIsExactlyOnce(steps: seq<Step>)
    requires Runs(EMPTY, steps)
    ensures var db := End(EMPTY, steps);
      && (forall r <- db.runs, q <- db.runs :: db.runs[r].source == db.runs[q].source ==> r == q)
      && (forall r <- db.runs :: multiset(db.jobs)[RunPipeline(r, 0)] == 1)
      && (forall j <- db.jobs :: GoodJob(db, j))
  {
    EveryHistoryKeepsInv(EMPTY, steps);
    var db := End(EMPTY, steps);
    forall r | r in db.runs ensures multiset(db.jobs)[RunPipeline(r, 0)] == 1 {
      OnceByKey(db.jobs, RunPipeline(r, 0));
    }
  }

  lemma {:induction false} OnceByKey(jobs: seq<Job>, job: Job)
    requires job in jobs && forall a, b | 0 <= a < b < |jobs| :: !SameKey(jobs[a], jobs[b])
    ensures multiset(jobs)[job] == 1
  {
    var n := |jobs| - 1;
    assert jobs == jobs[..n] + [jobs[n]];
    if job in jobs[..n] {
      var k :| 0 <= k < n && jobs[k] == job;
      assert !SameKey(jobs[k], jobs[n]);
      OnceByKey(jobs[..n], job);
    }
  }

  /** A redelivery opens no run and stores no row; it adds at most the resume job its own row is owed, and only once. */
  lemma RedeliveryIsHarmless(db: Db, m: Message, awaiting: Option<RunId>, late: Option<RunId>)
    requires m.messageId in db.emails
    ensures var (after, outcome) := Ingested(db, m, awaiting, late);
      && outcome == Duplicate && after.runs == db.runs && after.emails == db.emails
      && (after.jobs == db.jobs || exists j :: after.jobs == db.jobs + [j] && j.ResumeReply? && j.email == m.messageId)
      && Ingested(after, m, awaiting, late).0 == after
  {
    var after := Ingested(db, m, awaiting, late).0;
    var row := db.emails[m.messageId];
    if after != db {
      var j := ResumeReply(row.run.value, m.messageId, db.senders[row.sender]);
      assert after.jobs == db.jobs + [j];
      assert j in after.jobs && SameKey(j, j);
    }
  }

  // ---------------------------------------------------------------------------------------------
  // Which run a message belongs to
  // ---------------------------------------------------------------------------------------------

  /** Outbound message ids are words without LIKE wildcards, as the minted ones are. */
  ghost predicate PlainIds(db: Db) {
    forall id <- db.emails | db.emails[id].Outbound? :: IsWord(id) && Literal(id)
  }

  /** The message's In-Reply-To is the id, or its References field has it as a whole word. */
  ghost predicate Cites(m: Message, id: string) {
    m.inReplyTo == Some(id) || id in Words(m.references)
  }

  /** The message cites an email of the run. */
  ghost predicate CitesRun(db: Db, m: Message, run: RunId) {
    run in db.runs && exists id <- db.emails :: db.emails[id].Outbound? && db.emails[id].owner == run && Cites(m, id)
  }

  /** The run awaits a reply, and the message cites an email of its current epoch. */
  ghost predicate AnswersRun(db: Db, m: Message, run: RunId) {
    && run in db.runs && db.runs[run].awaitingReply
    && exists id <- db.emails :: db.emails[id] == Outbound(run, db.runs[run].epoch) && Cites(m, id)
  }

  ghost predicate MayResume(db: Db, sender: string, run: RunId) {
    run in db.runs && db.runs[run].awaitingReply && sender in db.senders && db.senders[sender] == db.runs[run].business
  }

  ghost predicate ResumeQueued(db: Db, run: RunId, email: string) {
    exists j <- db.jobs :: j.ResumeReply? && j.run == run && j.email == email
  }

  /** What a message seen for the first time comes to. */
  ghost predicate Threaded(db: Db, m: Message, after: Db, outcome: Outcome) {
    && m.messageId in after.emails && after.emails[m.messageId].Inbound?
    && var row := after.emails[m.messageId];
    && row.sender == m.sender && !row.consumed
    && (outcome == ReplyCandidate <==> exists run :: AnswersRun(db, m, run))
    && (outcome == LateReply <==> (exists run :: CitesRun(db, m, run)) && !exists run :: AnswersRun(db, m, run))
    && match outcome
       case ReplyCandidate =>
         && row.run.Some? && AnswersRun(db, m, row.run.value) && after.runs == db.runs
         && (MayResume(db, m.sender, row.run.value) ==> ResumeQueued(after, row.run.value, m.messageId))
         && (!MayResume(db, m.sender, row.run.value) ==> after.jobs == db.jobs)
       case LateReply => row.run.Some? && CitesRun(db, m, row.run.value) && after.runs == db.runs && after.jobs == db.jobs
       case UnknownSender => m.sender !in db.senders && row.run == None && after.runs == db.runs && after.jobs == db.jobs
       case NewRun =>
         && m.sender in db.senders && row.run == None
         && exists run :: run !in db.runs && RunPipeline(run, 0) in after.jobs
              && after.runs == db.runs[run := RunRow(db.senders[m.sender], m.messageId, false, 0)]
       case Duplicate => false
  }

  /** A message already stored changes no row and no run; an unconsumed reply of a run that still waits has its resume queued. */
  ghost predicate Redelivered(db: Db, m: Message, after: Db, outcome: Outcome)
    requires m.messageId in db.emails
  {
    var row := db.emails[m.messageId];
    var owed := row.Inbound? && !row.consumed && row.run.Some? && MayResume(db, row.sender, row.run.value);
    && outcome == Duplicate && after.emails == db.emails && after.runs == db.runs
    && (owed ==> ResumeQueued(after, row.run.value, m.messageId))
    && (!owed ==> after.jobs == db.jobs)
  }

  lemma NamesMeansCites(m: Message, id: string)
    requires IsWord(id) && Literal(id)
    ensures Names(m, id) <==> Cites(m, id)
    ensures Cites(m, id) ==> HasHeaders(m)
  {
    MatchesWholeTokens(id, m.references);
  }

  lemma QueuedOnce(db: Db, email: string, sender: string, run: RunId)
    ensures var after := AuthorizedReplyJob(db, email, sender, run);
      if MayResume(db, sender, run) then ResumeQueued(after, run, email) else after == db
  {
    if MayResume(db, sender, run) {
      var job := ResumeReply(run, email, db.senders[sender]);
      var after := AuthorizedReplyJob(db, email, sender, run);
      assert job in after.jobs || exists j <- db.jobs :: SameKey(j, job);
    }
  }

  lemma LookupsMean(db: Db, m: Message)
    requires PlainIds(db)
    ensures forall run :: run in AwaitingFor(db, m) <==> AnswersRun(db, m, run)
    ensures forall run :: run in AnyFor(db, m) <==> CitesRun(db, m, run)
    ensures forall run :: CitesRun(db, m, run) ==> HasHeaders(m)
    ensures forall run :: AnswersRun(db, m, run) ==> CitesRun(db, m, run)
  {
    hide Names, Cites, IsWord, Literal, HasHeaders;
    forall id <- db.emails | db.emails[id].Outbound? ensures Names(m, id) <==> Cites(m, id) ensures Cites(m, id) ==> HasHeaders(m) {
      NamesMeansCites(m, id);
    }
  }

  /**
    A new message is linked to an awaiting run exactly when its In-Reply-To is, or its References words
    contain, the id of an email of that run's current epoch; it opens a run only when neither header names an
    email of any run; and a linked reply from the run's business always has its resume queued.
   */
  lemma ThreadsExactly(db: Db, m: Message, awaiting: Option<RunId>, late: Option<RunId>)
    requires Inv(db) && PlainIds(db) && Lookups(db, m, awaiting, late)
    ensures var (after, outcome) := Ingested(db, m, awaiting, late);
      if m.messageId in db.emails then Redelivered(db, m, after, outcome) else Threaded(db, m, after, outcome)
  {
    hide AwaitingFor, AnyFor, HasHeaders, AnswersRun, CitesRun, JobsOk, ResumeQueued, PlainIds;
    LookupsMean(db, m);
    if m.messageId in db.emails {
      var row := db.emails[m.messageId];
      if row.Inbound? && row.run.Some? {
        QueuedOnce(db, m.messageId, row.sender, row.run.value);
      }
    } else if HasHeaders(m) && awaiting.Some? {
      QueuedOnce(db.(emails := db.emails[m.messageId := Inbound(m.sender, awaiting, false)]), m.messageId, m.sender, awaiting.value);
    } else if !(HasHeaders(m) && late.Some?) && m.sender in db.senders {
      OpensOne(db, m);
    }
  }

  lemma OpensOne(db: Db, m: Message)
    requires SourcesOk(db) && m.sender in db.senders
    ensures var stored := db.(emails := db.emails[m.messageId := Inbound(m.sender, None, false)]);
      var run, after := db.runCount, Opened(stored, m.messageId, db.senders[m.sender]);
      && run !in db.runs && RunPipeline(run, 0) in after.jobs
      && after.runs == db.runs[run := RunRow(db.senders[m.sender], m.messageId, false, 0)]
  {
    assert forall j | j in db.jobs && SameKey(j, RunPipeline(db.runCount, 0)) :: j == RunPipeline(db.runCount, 0);
  }
}
