/** The ingest transaction as it runs: the database's rows, changed in sequence. */
module InboundStore {
  import opened Prelude
  import opened Ingest

  class Store {
    var emails: map<string, Email>
    var runs: map<RunId, RunRow>
    var runCount: nat
    var senders: map<string, BusinessId>
    var jobs: seq<Job>

    constructor ()
      ensures View() == EMPTY
    {
      emails, runs, runCount, senders, jobs := map[], map[], 0, map[], [];
    }

    function View(): Db
      reads this
    {
      Db(emails, runs, runCount, senders, jobs)
    }

    method EnqueueJob(job: Job)
      modifies this`jobs
      ensures View() == old(View()).(jobs := Enqueue(old(jobs), job))
    {
      if forall j <- jobs :: !SameKey(j, job) {
        jobs := jobs + [job];
      }
    }

    /** Enqueues nothing unless the run awaits a reply and the sender belongs to its business. */
    method TryReplyJob(email: string, sender: string, run: RunId) returns (queued: bool)
      modifies this`jobs
      ensures View() == AuthorizedReplyJob(old(View()), email, sender, run)
      ensures queued <==> run in runs && runs[run].awaitingReply && sender in senders && senders[sender] == runs[run].business
    {
      if run !in runs || !runs[run].awaitingReply {
        return false;
      }
      if sender !in senders || senders[sender] != runs[run].business {
        return false;
      }
      EnqueueJob(ResumeReply(run, email, senders[sender]));
      queued := true;
    }

    /** One delivery: exactly one of five outcomes, with all the work it owes. */
    method IngestEmail(m: Message) returns (outcome: Outcome, ghost awaiting: Option<RunId>, ghost late: Option<RunId>)
      requires Inv(View())
      modifies this
      ensures Lookups(old(View()), m, awaiting, late)
      ensures (View(), outcome) == Ingested(old(View()), m, awaiting, late)
      ensures Inv(View()) && Kept(old(View()), View())
      ensures PlainIds(old(View())) ==>
                if m.messageId in old(emails) then Redelivered(old(View()), m, View(), outcome) else Threaded(old(View()), m, View(), outcome)
    {
      hide Inv, Kept, Names, AwaitingFor, AnyFor, PlainIds, Redelivered, Threaded;
      var waiting, any := AwaitingFor(View(), m), AnyFor(View(), m);
      var replyTo: Option<RunId> := None;
      if waiting != {} {
        var r :| r in waiting;
        replyTo := Some(r);
      }
      var lateTo: Option<RunId> := None;
      if any != {} {
        var r :| r in any;
        lateTo := Some(r);
      }
      awaiting, late := replyTo, lateTo;
      DeliverStep(View(), m, awaiting, late);
      if PlainIds(View()) {
        ThreadsExactly(View(), m, awaiting, late);
      }
      if m.messageId in emails {
        var row := emails[m.messageId];
        if row.Inbound? && !row.consumed && row.run.Some? {
          var _ := TryReplyJob(m.messageId, row.sender, row.run.value);
        }
        return Duplicate, awaiting, late;
      }
      emails := emails[m.messageId := Inbound(m.sender, None, false)];
      if HasHeaders(m) {
        if replyTo.Some? {
          emails := emails[m.messageId := Inbound(m.sender, replyTo, false)];
          assert emails == old(emails)[m.messageId := Inbound(m.sender, replyTo, false)];
          var _ := TryReplyJob(m.messageId, m.sender, replyTo.value);
          return ReplyCandidate, awaiting, late;
        }
        if lateTo.Some? {
          emails := emails[m.messageId := Inbound(m.sender, lateTo, false)];
          assert emails == old(emails)[m.messageId := Inbound(m.sender, lateTo, false)];
          return LateReply, awaiting, late;
        }
      }
      if m.sender !in senders {
        return UnknownSender, awaiting, late;
      }
      var run := runCount;
      runs := runs[run := RunRow(senders[m.sender], m.messageId, false, 0)];
      runCount := run + 1;
      EnqueueJob(RunPipeline(run, 0));
      outcome := NewRun;
    }
  }
}
