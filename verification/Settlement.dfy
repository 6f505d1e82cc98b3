/** Settling one leased job: what the coordinator writes, what it answers, and when the worker forgets its lease. */
module Settlement {
  import opened Prelude

  type Token = nat
  type RunId = nat

  datatype Kind = Ingest | SendOutbound | Pipeline

  /** A job row: leased exactly when it carries a lease token. */
  datatype Row = Row(kind: Kind, run: Option<RunId>, attempts: nat, maxAttempts: nat, lease: Option<Token>)

  /** The worker's copy of the row it was handed. */
  datatype Claimed = Claimed(kind: Kind, run: Option<RunId>, token: Token)

  datatype Verdict = Okay | Retryable | Terminal

  datatype Outcome = Done | Retried | Dead | Fenced | LostLease | InvalidContext

  function Freed(row: Row): Row {
    row.(lease := None)
  }

  /**
    Settles a job that is not an outbound send. `extracting` says whether its run still is, as both
    the rewind and the error write are conditional on that status.
   */
  function SettlePipeline(row: Row, job: Claimed, verdict: Verdict, extracting: bool): (Row, Outcome) {
    if row.lease != Some(job.token) then (row, Fenced)
    else if row.kind != job.kind then (row, Fenced)
    else if row.kind == Ingest then
      if row.run.Some? || job.run.Some? then (row, Fenced)
      else if verdict == Retryable && row.attempts < row.maxAttempts then (Freed(row), Retried)
      else (Freed(row), if verdict == Retryable then Dead else Done)
    else if row.run.None? || row.run != job.run then (row, Fenced)
    else if verdict == Okay then (Freed(row), Done)
    else if verdict == Retryable && row.attempts < row.maxAttempts then
      if !extracting then (row, Fenced) else (Freed(row), Retried)
    else if !extracting then (row, Fenced)
    else (Freed(row), if verdict == Retryable then Dead else Done)
  }

  /** What settling an outbound send does to the job row alone, whatever its branch. */
  function SettleSendRow(row: Row, job: Claimed, how: Outcome): (Row, Outcome)
    requires how == Done || how == Retried || how == InvalidContext
  {
    if row.lease != Some(job.token) then (row, LostLease) else (Freed(row), how)
  }

  /** Does the worker forget its token on this answer? */
  predicate LeaseIsSettled(kind: Kind, outcome: Outcome) {
    || (outcome == Done || outcome == Retried || outcome == Dead || outcome == LostLease || outcome == InvalidContext)
    || (kind != SendOutbound && outcome == Fenced)
  }

  /** The row does not belong to the job as claimed: its kind or its run disagree. */
  predicate ContextMismatch(row: Row, job: Claimed) {
    || row.kind != job.kind
    || (row.kind == Ingest && (row.run.Some? || job.run.Some?))
    || (row.kind != Ingest && (row.run.None? || row.run != job.run))
  }

  /** The worker owns the lease, and the run is no longer extracting, or the row is not the job's. */
  predicate StrandsTheLease(row: Row, job: Claimed, verdict: Verdict, extracting: bool) {
    && row.lease == Some(job.token)
    && (ContextMismatch(row, job) || (row.kind != Ingest && verdict != Okay && !extracting))
  }

  /**
    The answer that makes a worker forget its token leaves the lease in the database exactly when
    the settlement strands it; every other answer is given only when the lease is gone.
   */
  lemma ForgetsALiveLeaseExactly(row: Row, job: Claimed, verdict: Verdict, extracting: bool)
    ensures var (after, outcome) := SettlePipeline(row, job, verdict, extracting);
      && (LeaseIsSettled(job.kind, outcome) && after.lease == Some(job.token) <==>
            job.kind != SendOutbound && StrandsTheLease(row, job, verdict, extracting))
      && (after.lease == row.lease || (row.lease == Some(job.token) && after == Freed(row)))
  {
  }

  /** The worker still owns the lease, and the row is the job it claimed. */
  ghost predicate Owned(row: Row, job: Claimed) {
    && row.lease == Some(job.token) && row.kind == job.kind
    && if row.kind == Ingest then row.run == None && job.run == None else row.run.Some? && row.run == job.run
  }

  /**
    Each answer on its own condition: an owned job is retried while attempts are left and dead once they
    are used up, where the failure is retryable; it is done when it succeeded or failed for good; a failure needs its
    run to be extracting still, unless it has none. Everything else is fenced and changes nothing.
   */
  lemma PipelineAnswersExactly(row: Row, job: Claimed, verdict: Verdict, extracting: bool)
    ensures var (after, outcome) := SettlePipeline(row, job, verdict, extracting);
      var mayFail := Owned(row, job) && (row.kind == Ingest || extracting);
      && (outcome == Retried <==> mayFail && verdict == Retryable && row.attempts < row.maxAttempts)
      && (outcome == Dead <==> mayFail && verdict == Retryable && row.attempts >= row.maxAttempts)
      && (outcome == Done <==> (Owned(row, job) && verdict == Okay) || (mayFail && verdict == Terminal))
      && (outcome == Fenced <==> after == row)
      && outcome != LostLease && outcome != InvalidContext
  {
  }
}
