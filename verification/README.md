# Payroll agent: a verified model of its money paths and its protocols

The repository reads payroll hours from client emails, asks the client about anything that does not
add up, computes paystubs, and sends one confirmation after a human approves. This project models
the parts where a mistake would pay the wrong amount, lose work, or send a client an email twice,
and proves what those parts guarantee. `dafny verify dfyconfig.toml` checks all of it.

The model follows the program's own modules:

- **Payroll arithmetic** (`Rounding`, `TaxTables2026`, `FederalWithholding`, `PercentageMethod`,
  `CalcEngine`, `Paystub`): IRS Publication 15-T (2026), Worksheet 1A, with every line rounded to the
  cent; gross, FICA and net; the paystub's two columns.
- **Identity** (`ReconcileNames`, `AliasLearning`): resolving submitted names, bridging identities
  across a clarification, and learning nicknames. The name normaliser is an arbitrary function.
- **The hours pipeline** (`Validate`, `Decide`, `Backfill`, `Orchestrator`, `Rounds`,
  `Replies`, `AnsweredRounds`, `SnapshotRows`, `Conversation`, `ConversationLimits`,
  `CarryForwardExample`): both extractions of a round are arbitrary values, so the laws hold whatever
  the language model returned. One pass detects dropped hours on the raw extraction, backfills from the
  snapshot, validates, gates and computes. An answered round first classifies the reply, field by
  field, and writes the answers over the combined extraction.
- **The queue** (`WorkerLoop`, `StopSignal`, `Wake`, `Settlement`, `OutboundSettlement`, `Drain`,
  `DrainLedger`, `WorkerPool`): any number of threads as interleaved atomic steps over one wake event,
  one lease ledger and one lifecycle.
- **Outbound slots** (`SendSlots`, `ClarificationRounds`, `RunRecord`): every transaction is one atomic
  step; producers interleave and crash between steps.
- **Inbound** (`References`, `Ingest`, `InboundStore`): the header match and the ingest transaction.

Where the program changes things in place the model has a class or a method with the loop the program
has (`RunStages`, `AnswerRound`, `Ledger`, `Workers`, `Run`, `Store`), each proved equal to a function,
and the laws are proved about those functions. Where the program is concurrent, a step relation carries
the laws, and the class methods are proved to take exactly those steps.

## What the proofs found

Seven promises hold only under a condition. Each is stated with its exact condition, proved both ways.

- **Withholding can fall.** On the Single and Married-separately tables with the Step 2 checkbox, the
  row at 108938 starts twelve cents below where the row before it ends. Raising wages then lowers
  per-period withholding by one cent, for monthly and biweekly pay only; semimonthly and weekly
  rounding hide it (`FederalWithholding.NeverFallsExactly`).
- **A wake does not cover a delayed job.** A job due after its producer's wake waits for the poll.
  Coverage of first attempts holds exactly when no job is delayed
  (`WorkerLoop.CoveredExactlyWhenPrompt`). The fallback poll is documented for this in
  app/queue/wake.py:24-30.
- **A stop can sleep out a poll interval.** app/queue/worker.py:165-173 says it never does. With two
  or more threads, one thread's `clear` can erase the stopper's wake after another thread has passed
  its stop check (`StopSignal.StopSeenExactly`). Each thread waits at most once more
  (`StopSignal.NoNewWaitsAfterStop`).
- **A fenced settlement can forget a live lease.** app/queue/drain.py:163-166 reads "fenced" as a lost
  lease. The coordinator also answers "fenced" when it still finds the lease but the run is no longer
  extracting (app/db/repo/job_settlement.py:884-886, app/db/repo/job_settlement.py:912-922), so the
  token is dropped while the row stays leased (`Settlement.ForgetsALiveLeaseExactly`). The shutdown
  snapshot is complete exactly without that and without a claim whose reply is lost after its commit
  (`Drain.SnapshotCompleteExactly`).
- **A rewind reuses rounds.** app/db/repo/pipeline_state.py:428-496 resets the round counter and keeps
  the epoch, so two questions for different purposes can share a round. A resume that stalls past an
  operator's restart can do the same in the new epoch. Distinct rounds, and with them the bound of
  three emails, hold exactly for one producer at a time without rewinds
  (`ClarificationRounds.DistinctRoundsExactly`). The bound that always holds is six
  (`SendSlots.SlotsAreBounded`), and a run attains it (`ClarificationRounds.SixIsReached`).
- **A rewind forgets answers.** The same rewind clears every label and the snapshot. A resume that dies
  after storing what the client answered is reclaimed through it
  (app/queue/handlers/resume_reply.py:67-80), so a terminal goes back to absent within its epoch and an
  email already sent asks about a field that is on no record. Labels only move forward, and every
  question is on record, exactly without rewinds (`ConversationLimits.LabelsMoveForwardExactly`,
  `ConversationLimits.QuestionsAreRecordedExactly`).
- **An operator override bypasses the client's answer.** Answers are written over employees found
  without overrides (app/pipeline/orchestrator.py:671), while the gate uses overrides
  (app/pipeline/orchestrator.py:932). For a name only an override resolves, the combined extraction's
  value is paid whatever the label says (`AnsweredRounds.OverrideBypassesTheAnswer`,
  `AnsweredRounds.OverriddenNamesExactly`).

## Assumptions

- Each repository call is one atomic update with its documented contract: fenced settlement, inserts
  that do nothing on a duplicate key, an epoch bump on an operator's context clear and none on the
  automatic rewind, row locks for the length of a transaction. The roster held in memory while aliases
  are written is the roster as stored.
- Employee ids are 128-bit numbers whose numeric order is the order of their canonical text; distinct
  ids have distinct text. An operator's choice or a stored candidate may be any text, parsing or not.
- Money is exact: wages and rates are rationals, results whole cents, half a cent rounds up. Hours are
  non-negative, as the extraction contract demands.
- New UUIDs and synthetic Message-IDs are never repeated.

## Model

| member | source | states |
|---|---|---|
| Rounding.MoneyExactly | app/pipeline/calculate.py:61-71 | an amount rounds to the nearest cent, and a half cent away from zero |
| TaxTables2026.TablesWellFormed | app/pipeline/tax_tables_2026.py:54-76 | each reachable table has eight contiguous rows from zero, rates of at most 37 percent and non-negative bases |
| TaxTables2026.TableJumps | app/pipeline/tax_tables_2026.py:118-140 | the only discontinuities of the reachable tables are minus 12 cents and plus 18 cents in the Single Step 2 table |
| FederalWithholding.FindBracket | app/pipeline/federal_withholding.py:47-62 | the row found holds the wage: at or above its lower bound and below its upper bound |
| FederalWithholding.ExactSpread | app/pipeline/federal_withholding.py:140-143 | for any well-formed table, unrounded annual tax moves between two wages by no less than minus its drops and no more than 37 percent plus its rises |
| FederalWithholding.AnnualIsRoundedExact | app/pipeline/federal_withholding.py:140-143 | the stepwise rounded annual tax is the exact tax rounded once |
| FederalWithholding.NeverFallsMoreThanACent | app/pipeline/federal_withholding.py:77-163 | raising taxable wages never lowers per-period withholding by more than one cent, for every status, checkbox, frequency and W-4 |
| FederalWithholding.SlopeAtMost37PercentPlusThreeCents | app/pipeline/federal_withholding.py:124-163 | raising non-negative wages by d raises withholding by at most 37 percent of d plus three cents |
| FederalWithholding.NeverFallsExactly | app/pipeline/tax_tables_2026.py:130-140 | withholding never falls, except exactly with the checkbox, not married-jointly, and monthly or biweekly pay |
| FederalWithholding.FallWitness | app/pipeline/tax_tables_2026.py:136-137 | a concrete wage at which one more cent of pay withholds one cent less |
| PercentageMethod.ExactIsAnnualTax | app/pipeline/tax_tables_2026.py:46-162 | for each status and checkbox the unrounded annual tax is the progressive sum of the seven marginal rates over the part of the wage in each printed bracket, plus the two jumps of the Single Step 2 schedule |
| PercentageMethod.WithholdingIsProgressive | app/pipeline/federal_withholding.py:77-163 | withholding is that progressive tax on the year's income less deductions and the line 1g amount, rounded, shared over the periods, less the period's credit, never below zero |
| PercentageMethod.NothingWithheldExactly | app/pipeline/federal_withholding.py:124-163 | nothing is withheld exactly below one threshold of the year's tax, which the credit raises |
| PercentageMethod.TaxFreeExactly | app/pipeline/federal_withholding.py:120-139 | without a credit nothing is withheld exactly while wages and other income less the W-4 deductions stay under $16,100, or $32,200 for joint filers, halved by the checkbox, plus a stated few cents |
| CalcEngine.ResolvedExactly | app/pipeline/calculate.py:74-147 | the hours mapping is accepted exactly when its keys are known and every value is absent, empty or a non-negative number; otherwise the error names what is wrong with a key or a value |
| CalcEngine.NeverDrifts | app/pipeline/calculate.py:162-194 | the reconciliation backstop never fires; calculate fails exactly on unacceptable hours, and its line ties out to the cent |
| CalcEngine.LinePaysEmployee | app/pipeline/calculate.py:197-330 | every amount of a computed line is the employee's own: gross at their rate or salary, the 401k share at the override or else the stored rate, federal tax as the worksheet on gross less that share, FICA on gross up to their wage base |
| CalcEngine.GrossNearExact | app/pipeline/calculate.py:213-255 | the gross of a computed line is within rounding of straight time plus time and a half, or of the period salary plus leave at the implied hourly rate |
| CalcEngine.FicaOnGross | app/pipeline/calculate.py:267-276 | on the line computed for any employee and hours, Social Security taxes exactly the part of gross within the wage base and Medicare all of gross, whatever the 401k share |
| CalcEngine.ContributionTouchesOnlyFederal | app/pipeline/calculate.py:257-309 | of two lines computed for the same employee and hours, a larger 401k share leaves gross and FICA alone, raises federal tax by at most a cent, and bounds net from both sides |
| CalcEngine.LeavePayFrequencyIndependent | app/pipeline/calculate.py:234-255 | of two lines for the same salary and hours under different frequencies, gross differs by exactly the two period salaries |
| Paystub.SumDeductions | app/pipeline/pdf.py:160-172 | the running total equals the sum of all deductions, shown or not |
| Paystub.ColumnsTie | app/pipeline/pdf.py:124-183 | for any history of computed lines, gross is total deductions plus net in the current and the year-to-date column |
| Paystub.YearToDateTotals | app/pipeline/pdf.py:124-183 | each year-to-date column is that column's total over the history and the current line |
| ReconcileNames.ReconcileNames | app/pipeline/reconcile_names.py:115-166 | the loop gives, per name and in order, the operator's choice if it is on the roster, else the deterministic match, else unresolved |
| ReconcileNames.OperatorDecides | app/pipeline/reconcile_names.py:142-166 | a choice that parses and names a roster employee decides, with source operator, whatever the plain resolver says; any other choice leaves the plain answer |
| ReconcileNames.ResolvedOnRoster | app/pipeline/reconcile_names.py:142-166 | a resolved name names a roster employee whatever the overrides hold |
| ReconcileNames.ResolvesToTheSoleBearer | app/pipeline/reconcile_names.py:52-101 | without overrides a name resolves to an id exactly when a roster employee with that id bears it and no other employee does |
| ReconcileNames.ResolvesExactly | app/pipeline/reconcile_names.py:69-101 | without overrides a name resolves to an employee exactly when that employee is its only candidate, and the source says which tier matched |
| Validate.IdKeyed | app/pipeline/validate.py:99-118 | the two dictionary loops give the last-wins map from id to employee |
| Validate.NameToIdMeans | app/pipeline/validate.py:108-112 | a name leads to the employee of the last match that resolved it, and a name never resolved leads nowhere |
| Validate.KeyedSound | app/pipeline/validate.py:99-118 | a keyed employee is extracted and its own name leads to its key |
| Validate.KeyedComplete | app/pipeline/validate.py:99-118 | every resolvable employee is keyed, and is the keyed one unless a later one shares its id |
| Validate.SortedAscending | app/pipeline/validate.py:144 | the pairing runs in ascending id order |
| Validate.DetectFieldRegression | app/pipeline/validate.py:148-199 | the nested loops give every drop of every pair, in pair and field order |
| Validate.DetectHoursChanges | app/pipeline/validate.py:202-258 | the nested loops give every paid-to-paid change of every pair, in order |
| Validate.DropReported | app/pipeline/validate.py:148-199 | a drop is reported exactly when one person present on both sides was paid for the field before and is not now |
| Validate.Validate | app/pipeline/validate.py:261-398 | the three passes give the regression issues, then missing hours, then missing overtime splits |
| Validate.RegressionRaised | app/pipeline/validate.py:290-328 | a drop becomes a gating issue exactly when its name resolves and its pair is not suppressed |
| Validate.NoPaidChangeEscapes | app/pipeline/validate.py:148-258 | for a person on both sides a paid field is as it was, or reported as a drop, or reported as a change |
| Validate.MissingRaised | app/pipeline/validate.py:329-398 | a missing-field issue is raised exactly for hourly employees without paid hours, on regular hours, and for weekly and biweekly ones over full time without paid overtime, on overtime |
| Orchestrator.MissingExactly | app/pipeline/validate.py:60-96 | a pass stores such an issue exactly for employees whose matched id is an hourly roster employee's, or a weekly or biweekly one's, on the backfilled hours it stores |
| Decide.CheckOneToOne | app/pipeline/decide.py:42-93 | the loops give one reason per employee under two names and one per repeated name |
| Decide.CollisionFreeExactly | app/pipeline/decide.py:42-93 | the run-level check is silent exactly when names and employees correspond one to one |
| Decide.Decide | app/pipeline/decide.py:96-156 | the gate's reasons in the program's order, and process exactly when there is none |
| Decide.ProcessExactly | app/pipeline/decide.py:96-156 | process exactly when there are employees, one resolved match each, no name or employee twice, and no issue |
| Decide.ReasonsExactly | app/pipeline/decide.py:108-156 | every reason given holds of the names, matches or issues, and every one that holds is given |
| Decide.TwoNamesAreListed | app/pipeline/decide.py:42-93 | an employee under two names is named in one reason that lists every name submitted for it |
| Decide.UnresolvedNamesExactly | app/pipeline/decide.py:126-131 | the unresolved names are those of the unresolved matches, each once |
| AliasLearning.ConfirmedPriorMatches | app/pipeline/alias_learning.py:109-224 | the loop over candidates gives the bridged prior matches |
| AliasLearning.BridgeComplete | app/pipeline/alias_learning.py:186-224 | a candidate bound to a roster employee, or suggesting one whom a record of this round confirms, is never passed over: employee or token is resolved in the result, and if neither was claimed before, the token leads to the employee |
| AliasLearning.BridgedTokenIsSole | app/pipeline/alias_learning.py:129-137 | that token, and no other name, leads to the employee |
| AliasLearning.BridgeConservative | app/pipeline/alias_learning.py:164-224 | the prior matches stay a prefix; each addition is a roster employee entitled by a bound record or one confirming record, and repeats no mapped employee or token |
| AliasLearning.BridgeKeepsPairing | app/pipeline/alias_learning.py:164-224 | the snapshot pairing of every previously mapped employee is unchanged |
| AliasLearning.SafeExactly | app/pipeline/alias_learning.py:227-266 | a token is safe to learn exactly when no other employee answers to it |
| AliasLearning.WriteAliasesIfSafe | app/pipeline/alias_learning.py:307-362 | the loop stores every safe candidate in turn against the roster as it then stands |
| AliasLearning.LearningIsConservative | app/pipeline/alias_learning.py:307-362 | over any batch a name keeps its candidates, or had none and now leads to the employee bound to a learned token of its normal form |
| AliasLearning.LearningKeepsResolutions | app/pipeline/alias_learning.py:255-266 | resolved names resolve as before with the same source, ambiguous ones stay unresolved, and new resolutions come only from learned tokens |
| AliasLearning.LearnedTokenResolves | app/pipeline/alias_learning.py:307-362 | a bound token no other employee answers to, and no earlier candidate binds elsewhere, resolves to its employee once the batch is stored |
| Backfill.BackfillExtracted | app/pipeline/orchestrator.py:106-206 | the loops fill each employee from its own snapshot row, outside the skip set |
| Backfill.ChangedOnlyFromOwnSnapshot | app/pipeline/orchestrator.py:143-199 | a field changes exactly when it was unpaid, not skipped, and paid in the snapshot row of the same employee, and its new value is that row's |
| Backfill.Idempotent | app/pipeline/orchestrator.py:106-206 | backfilling twice is backfilling once |
| Backfill.DetectAfterBackfill | app/pipeline/validate.py:148-199 | detecting again after backfill finds exactly the raw drops whose pair is in the skip set, in order |
| Orchestrator.ComputeLineItems | app/pipeline/orchestrator.py:1059-1108 | the loop gives the lines in order, or the first error met |
| Orchestrator.LinesFailExactly | app/pipeline/orchestrator.py:1066-1086 | over any matches the lines fail exactly when the last match for an employee's name is off the roster, and for no other reason |
| Orchestrator.RunStages | app/pipeline/orchestrator.py:928-995 | detect on the raw extraction, backfill, validate, gate and compute, in that order and on those values |
| Orchestrator.RegressionExactly | app/pipeline/orchestrator.py:959-988 | a pass stores a regression exactly for a drop on the raw extraction whose employee and field were not answered for |
| Orchestrator.ProcessOnRecord | app/pipeline/decide.py:96-156 | a pass processes exactly when somebody was extracted, every stored match is resolved, none repeats a name or employee, and no issue is stored |
| Orchestrator.ProcessPaysEveryoneOnce | app/pipeline/orchestrator.py:1066-1108 | the pass never fails; a process run has exactly one line per extracted employee, in order, for different roster employees, each the engine's line for that employee's own pay, W-4 and override on the employee's own hours |
| Orchestrator.NoPaidHourVanishesUnanswered | app/pipeline/orchestrator.py:942-984 | on process, pay the snapshot held and the extraction lacks is in the suppress set |
| Orchestrator.NothingCarriedUnasked | app/pipeline/orchestrator.py:942-984 | on process, every field that backfill changed is in the suppress set |
| Rounds.FindReplyEmployee | app/pipeline/orchestrator.py:527-563 | the dictionary and the scan find the last employee of the first name that means the id |
| Rounds.ReplyEmployeeMeans | app/pipeline/orchestrator.py:557-563 | the employee found is in the reply under a name meaning the id; none is found only if the reply has no such name |
| Replies.SpeakerAnswers | app/pipeline/orchestrator.py:505-601 | an asked field is labelled by the field of the reply employee whose name means its id: as it resolves now, or if it does not resolve, as it last did; the first such name decides, and the last employee under it |
| Replies.StaysAskedExactly | app/pipeline/orchestrator.py:565-577 | a field stays asked exactly when no name of the reply means its employee |
| Replies.SomebodySpeaks | app/pipeline/orchestrator.py:527-563 | if any name of the reply means the employee, some employee of the reply answers |
| Replies.SoleSpeaker | app/pipeline/orchestrator.py:557-563 | a sole reply employee meaning the id is the one that answers |
| Replies.OthersKeepTheirLabels | app/pipeline/orchestrator.py:550-555 | no label comes or goes in classifying, and one not asked about is left as it was |
| Rounds.ClassifyReply | app/pipeline/orchestrator.py:550-603 | each asked field gets its label and forced value, and the answered and the unresolvable pairs are collected |
| Rounds.OverwriteCombined | app/pipeline/orchestrator.py:668-693 | every forced value is written over the employees whose names lead to its id, and nothing else |
| Rounds.AnswerRound | app/pipeline/orchestrator.py:499-756 | classify, build the two sets, overwrite, merge the prior matches and run one pass |
| AnsweredRounds.SetsExactly | app/pipeline/orchestrator.py:605-646 | suppression holds exactly the pairs not left asked, and the skip set exactly the pairs not carried forward |
| AnsweredRounds.AskedFieldIsPaidAsLabelled | app/pipeline/orchestrator.py:516-722 | every asked field of every employee meaning its id is labelled and paid as the reply's own employee said, silence leaving the snapshot's pay and nobody speaking leaving none, whatever the combined extraction held |
| AnsweredRounds.UnaskedFieldKeepsItsValue | app/pipeline/orchestrator.py:548-601 | a field not asked keeps the combined value unless backfill may and does restore it |
| AnsweredRounds.OverrideBypassesTheAnswer | app/pipeline/orchestrator.py:668-687 | a name resolved by an override alone keeps its paid combined value whatever was answered |
| AnsweredRounds.OverriddenNamesExactly | app/pipeline/orchestrator.py:668-687 | with overrides the label law holds for a name exactly when the plain resolver gives the same employee; the failing round has a snapshot that paid the asked field |
| AnsweredRounds.OnlyCarriedForwardIsRestored | app/pipeline/orchestrator.py:605-646 | an answered round that processes restored only fields labelled carried forward |
| AnsweredRounds.FirstResumeRestoresNothing | app/pipeline/orchestrator.py:441-453 | a first resume that processes restored nothing |
| AnsweredRounds.UnresolvableFieldHadNoPay | app/pipeline/orchestrator.py:565-577 | when a round processes, a field nobody in the reply answered for was not paid in the snapshot |
| AnsweredRounds.AnsweredRoundPaysWhatWasSaid | app/pipeline/orchestrator.py:499-756 | end to end without overrides: one line per employee, paid in that employee's own way, each field the client's answer, a permitted carry-forward, or the combined value |
| SnapshotRows.CarriedFromOwnRow | app/pipeline/orchestrator.py:702-722 | what an answered round carries forward is the pay on the snapshot's last row whose name last meant the employee, or, never resolved before, resolves to it now |
| SnapshotRows.FirstResumePaysTheExtraction | app/pipeline/orchestrator.py:441-453 | a first resume that processes pays exactly the extraction's own hours, each line in its employee's own way |
| SnapshotRows.FirstResumeAsksForLostPay | app/pipeline/orchestrator.py:441-453 | a first resume never processes while an employee lacks pay that the snapshot's row for them held |
| SnapshotRows.ConfirmedTokenIsThePerson | app/pipeline/orchestrator.py:906-955 | what the snapshot paid under a name the reply confirmed, it paid to the confirmed employee |
| SnapshotRows.ConfirmedTokensDropIsSeen | app/pipeline/alias_learning.py:109-137 | pay under a confirmed name that the employee's new row lacks is reported as dropped with its amount, and gates the pass unless answered for |
| SnapshotRows.ConfirmedNamesAreNotUnderpaid | app/pipeline/orchestrator.py:441-453 | a first resume never processes while a person whose name the stored candidates confirm lacks pay the snapshot held under that name |
| SnapshotRows.CarriedUnderAConfirmedName | app/pipeline/orchestrator.py:715-756 | on an answered round what is carried forward for such a person is the pay under that name |
| SnapshotRows.EveryPaidChangeIsOnRecord | app/pipeline/orchestrator.py:941-961 | a field the snapshot paid is as it was, or among the pass's drops, or among the changes it stores |
| CarryForwardExample.TheHoursAreRestored | app/pipeline/orchestrator.py:622-645 | a concrete answered round processes and pays a carried-forward overtime that no text restated |
| Conversation.DeferFieldRegression | app/pipeline/clarification.py:97-119 | the loop records a question per dropped field, never over a terminal |
| Conversation.ResumePipeline | app/pipeline/orchestrator.py:437-770 | both kinds of resume, with the labels each leaves behind |
| Conversation.ResumePays | app/pipeline/orchestrator.py:437-770 | a resume that processes pays as the client answered once anything is on record, and the extraction's own hours otherwise |
| Conversation.LostPayStopsTheResume | app/pipeline/orchestrator.py:441-453 | with nothing on record, lost snapshot pay keeps the resume from processing |
| Conversation.FirstPassReadsOnlyTheEmail | app/pipeline/orchestrator.py:928-961 | the first pass stores the extraction as it is and the plain resolver's matches, and pays exactly those hours |
| Conversation.WithoutRewinds | app/pipeline/orchestrator.py:550-646 | over any passes, questions and crashes without a rewind, no pair leaves, no terminal changes, every question frozen or pending is on record, and the first question's snapshot stays |
| ConversationLimits.LabelsMoveForwardExactly | app/db/repo/pipeline_state.py:428-496 | within an epoch labels go from absent to asked to terminal and never back, over every history, exactly when no stranded run is rewound |
| ConversationLimits.TheTerminalIsLost | app/queue/handlers/resume_reply.py:67-80 | a run the program takes in which a stored terminal is cleared within its epoch |
| Conversation.TerminalsAreNotRaisedAgain | app/pipeline/clarification.py:107-118 | a dropped field that gates a round has no terminal label, so the guard is never needed |
| Conversation.EveryQuestionIsRecorded | app/pipeline/clarification.py:97-126 | every dropped field that gates a round is labelled asked by the pass that defers its question |
| ConversationLimits.QuestionsAreRecordedExactly | app/pipeline/clarification.py:120-151 | a question about to be frozen is on record as asked, and a frozen one on record, in every history exactly when no stranded run is rewound |
| WorkerLoop.NoWakeupIsLost | app/queue/worker.py:184-206 | for any number of workers and any run, until a stop, a job claimable ever since some wake means the event is set or some worker claims before it can block |
| WorkerLoop.AsleepMeansNothingSignalled | app/queue/worker.py:184-206 | an unstopped pool that is wholly asleep has no signalled job waiting |
| WorkerLoop.DrainPromiseIsKept | app/queue/worker.py:184-206 | an unstopped worker gives up its coming drain only by a claim that found nothing, when no job with attempts left is due or lapsed |
| WorkerLoop.ClaimsWhatWaits | app/db/repo/jobs.py:432-447 | a worker at its claim can take a job exactly when it has attempts left and is due or its lease has lapsed |
| WorkerLoop.WaitsOnlyWhenIdle | app/queue/worker.py:184-206 | a thread comes to the wait only past a claim and a reap that found nothing, and leaves only on a stop |
| WorkerLoop.ReapedWorkIsFollowedUp | app/queue/worker.py:197-199 | after a reap that found something the thread drains again before it can wait |
| WorkerLoop.CoveredExactlyWhenPrompt | app/queue/wake.py:24-30 | a woken, due first attempt is covered in every run exactly when jobs are due at their commit |
| StopSignal.NoNewWaitsAfterStop | app/queue/worker.py:184-202 | after a stop a thread not yet at the wait never reaches it |
| StopSignal.NoNewClaimsAfterStop | app/queue/worker.py:184-206 | a thread outside its drain when the stop is set never claims again, over any continuation |
| StopSignal.StopSeenExactly | app/queue/worker.py:165-202 | a stop is noticed without sleeping out a poll in every run exactly when the pool has at most one thread |
| Wake.WakeEvent.Set | app/queue/wake.py:39-44 | sets the flag, releases every waiter, and is the wake step of the loop |
| Wake.WakeEvent.Clear | app/queue/wake.py:57-64 | clears the flag, leaves the waiters, and is the clear step of the loop |
| Wake.WakeEvent.Wait | app/queue/wake.py:47-54 | returns at once on a set flag, else joins the waiters, and is the wait step of the loop |
| Wake.WakeEvent.WaitUndisturbed | app/queue/wake.py:47-54 | a wait nobody interrupts answers whether the flag was set, leaves the waiters as they were, and is the wait and timeout steps of the loop |
| Settlement.ForgetsALiveLeaseExactly | app/queue/drain.py:159-166 | the answer that drops the token leaves the lease in the database exactly when the settlement strands it |
| Settlement.PipelineAnswersExactly | app/db/repo/job_settlement.py:845-930 | retried, dead, done or fenced, each exactly on its condition of ownership, verdict, attempts and the run still extracting; a fence changes nothing |
| OutboundSettlement.NeverRaises | app/db/repo/job_settlement.py:368-588 | the rows read under lock make every conditional write of the transaction succeed |
| OutboundSettlement.OutboundNeverStrands | app/db/repo/job_settlement.py:368-588 | through the whole decision tree every answer drops the token, none is a fence, and the lease is gone |
| OutboundSettlement.ObsoleteWorkLeavesDeliveryAlone | app/db/repo/job_settlement.py:117-137 | an invalid context frees the lease and touches neither message, run, handoff nor ledger |
| OutboundSettlement.SentExactlyWithAuthority | app/db/repo/job_settlement.py:399-547 | a message becomes sent exactly under its own lease for a run and epoch that still await it, with the provider's acceptance under its own handoff or for a record-only run; a confirmation reconciles its run |
| OutboundSettlement.AnswersExactly | app/db/repo/job_settlement.py:380-588 | each other answer exactly on its condition: a replay with the window open, under eight attempts and its own handoff; a review for every other failure and for an authority that ran out; with the ledger entry each makes |
| OutboundSettlement.OwedMailIsAccountedFor | app/db/repo/job_settlement.py:448-588 | a message still owed is sent, scheduled for replay, handed to the operator, or left as it was by a lease without authority |
| Drain.EveryLeaseIsAccountedFor | app/queue/drain.py:169-260 | under every interleaving the counter is the number of threads in the claim window, and every lease out is held, in a window thread's hand, or abandoned |
| Drain.SnapshotMissesOnlyAbandoned | app/queue/drain.py:101-105 | with no claim in flight the snapshot lists every lease out but the abandoned ones |
| Drain.ReleaseLeavesOnlyAbandoned | app/db/repo/jobs.py:541-562 | releasing what the snapshot lists frees exactly those leases, and leaves none out but the abandoned ones |
| Drain.NoLapsedLeaseIsStuck | app/db/repo/job_settlement.py:982-993 | over every run a lapsed lease can be taken over by any claiming thread, or with its attempts used up be dead-lettered |
| Drain.TimedOutSnapshotMissesFew | app/queue/drain.py:106-116 | a snapshot that gave up waiting misses at most one more lease per claim in flight |
| Drain.SnapshotCompleteExactly | app/queue/drain.py:101-105 | the zero-count snapshot lists every lease in every run exactly without lost claim replies and stranding settlements |
| DrainLedger.Ledger.BeginClaim | app/queue/drain.py:183-184 | the counter grows by one, as in the step system |
| DrainLedger.Ledger.EndClaim | app/queue/drain.py:189-192 | the token is recorded and the window closed together, as in the step system |
| DrainLedger.Ledger.Finish | app/queue/drain.py:256-259 | the token is dropped exactly when its lease is settled |
| DrainLedger.Ledger.Snapshot | app/queue/drain.py:77-117 | answers only with no claim in flight or out of time, and in the first case misses only abandoned leases |
| DrainLedger.Ledger.DrainOnce | app/queue/drain.py:169-260 | one drain takes exactly the steps of the interleaved system, leaves the counter as it was, and keeps the token exactly when settling raised or did not settle the lease |
| WorkerPool.EveryLifecycleKeepsInv | app/queue/worker.py:100-260 | the lifecycle invariant holds over any starts, stops, deaths and failing releases, and a stop event once set stays set |
| WorkerPool.LifecycleIsSafe | app/queue/worker.py:184-260 | every live thread carries the current generation, and each stopped generation has released its leases exactly once |
| WorkerPool.FreshGenerationIsNotStopped | app/queue/worker.py:124-127 | a new generation's stop event is not set |
| WorkerPool.WorkersFitThePool | app/queue/worker.py:274-286 | booted through the lifespan, live workers and the reserve always fit the connection pool |
| WorkerPool.Workers.Start | app/queue/worker.py:100-138 | refuses exactly while a thread is listed or an orphan lives, else spawns one new generation |
| WorkerPool.Workers.Stop | app/queue/worker.py:213-260 | sets the event, releases once, tracks whoever outlived the join, and leaves the pool as it was when the release raises |
| WorkerPool.Workers.Boot | app/queue/worker.py:274-286 | refuses before starting anything when the budget would be exceeded |
| SendSlots.EveryRunKeepsInv | app/db/repo/emails.py:213-322 | over any interleaving with crashes, rewinds and restarts no slot is lost and no frozen email id or envelope changes |
| SendSlots.SlotsAreBounded | app/pipeline/clarification.py:286-353 | an epoch holds at most six questions and one confirmation, and every frozen email has exactly one send job |
| SendSlots.CallsStandByTheirRound | app/pipeline/clarification.py:286-501 | however others move the counter, a call stands by the round it read, and a call that ends leaves the run waiting just past it |
| SendSlots.CapIsReadOnce | app/pipeline/clarification.py:286-295 | the cap is seen when the round is read: below three the call goes on with that round, otherwise it only moves the run to the operator |
| ClarificationRounds.SixIsReached | app/db/repo/pipeline_state.py:428-496 | a run with a rewind freezes six questions in one epoch, so the bound is attained |
| ClarificationRounds.UninterruptedClarify | app/pipeline/clarification.py:286-501 | the call's own reads and transactions, run without interruption, are the whole call |
| ClarificationRounds.AfterThreeOnlyEscalates | app/pipeline/clarification.py:286-295 | without rewinds and with one producer at a time an epoch has at most three questions, and after three the next attempt only moves the run to the operator |
| ClarificationRounds.AtMostThree | app/pipeline/clarification.py:286-295 | questions of an epoch at distinct rounds number at most three |
| ClarificationRounds.DistinctRoundsExactly | app/db/repo/pipeline_state.py:428-496 | questions of an epoch are at distinct rounds in every run exactly with one producer at a time and no rewind |
| RunRecord.Run.Clarify | app/pipeline/clarification.py:286-501 | the whole call: past three rounds only the move to the operator; before that the round's own slot used or inserted, one job, the snapshot kept, the round advanced, and a wake unless the email is out |
| RunRecord.Run.ReserveSnapshot | app/db/repo/emails.py:184-322 | an existing slot is returned as it was frozen, a new one is inserted once |
| RunRecord.Run.ApproveAndDeliver | app/routes/runs.py:453-468 | nothing unless the run awaits approval; a delivered confirmation finishes the run, otherwise its one confirmation is frozen or requeued with one job |
| RunRecord.Run.RetriggerRun | app/routes/runs.py:784-817 | exactly from the retriggerable statuses without an active handoff: back to received, round zero, no snapshot, a new epoch, every slot kept; otherwise nothing changes |
| RunRecord.Run.RewindForReclaim | app/db/repo/pipeline_state.py:428-496 | exactly from extracting, computed and sent: back to received in the same epoch, round zero, no snapshot, every slot kept |
| RunRecord.Run.AuthorizeNew | app/routes/runs.py:1219-1274 | exactly for an acknowledged review of this epoch's unconfirmed confirmation with a yielding handoff: a new epoch's confirmation with its content under a new message id; otherwise nothing changes |
| References.SplitExactly | app/db/repo/emails.py:863-865 | a word of the header is a stretch without whitespace bounded by whitespace or the ends |
| References.MatchesWholeTokens | app/db/repo/emails.py:849-877 | for a non-empty id without whitespace or wildcards the padded test succeeds exactly when the id is a whole word of the header |
| References.WholeTokensExactly | app/db/repo/emails.py:849-877 | among ids without whitespace that law holds for the non-empty ones without LIKE wildcards and no others |
| Ingest.IngestIsExactlyOnce | app/ingest.py:38-141 | over any history a message is the source of at most one run, every run has exactly one initial pipeline job, and every resume job names an inbound row of its run from a sender of its business |
| Ingest.RedeliveryIsHarmless | app/ingest.py:79-94 | a redelivery opens no run, stores no row, and adds at most the one resume job its row is owed |
| Ingest.ThreadsExactly | app/ingest.py:64-141 | a new message is linked to an awaiting run exactly when its In-Reply-To is, or its References words contain, the id of an email of that run's current epoch; it opens a run only when neither header names any run's email; a linked or redelivered reply the run still waits for has its resume queued |
| InboundStore.Store.IngestEmail | app/ingest.py:64-141 | one delivery has exactly one of the five outcomes, decided by which stored emails the two headers name, with all the work it owes, and keeps every row, link, run and job |
| InboundStore.Store.TryReplyJob | app/ingest.py:38-61 | enqueues exactly when the run awaits a reply and the sender belongs to its business |

## Left out

- Language-model calls, prompts, drafting and suggestions: extractions are arbitrary inputs, and nothing proved depends on the drafts.
- Web routing, templates, PDF layout, webhook verification, provider calls, health pages, eval scoring and scripts: I/O and presentation.
- The decision's list of missing fields: it is read off the issues it carries.
- SQL text, pooling and migrations: each repository call is an atomic update. The claim is modelled as seeing every claimable row, so a row another transaction has locked and then releases unchanged is not modelled.
- The binding of a confirmed suggestion after a resume (app/pipeline/orchestrator.py:776-853) and the capture of a token before a question: `BindEvidence` is modelled where the bridge uses it; the stored record is an arbitrary input.
- Run id and pay period on an extraction: they pass through unchanged.
- The nested dictionary of labels is one flat map keyed by employee and field; the field text of an issue is a pair of name and field; reason wording is a constructor.
- Known aliases are a set: their order is never read.
- The Additional Medicare flag, head-of-household tables, W-4 Step 4c, backoff jitter and replay offsets: they would add only easy members.
- Decimal's 28-digit context, infinities and NaN: arithmetic is exact.
- Social Security wages accumulated across runs: the engine reads them and never advances them.
- A thread that fails to start, and interpreter shutdown: threads start when spawned.
- Fairness and timing: the queue laws are safety laws; that a runnable thread eventually runs is not modelled.
- The wording and age limits of a delivery review, and the operator's mark-as-delivered action: a review is present or absent, and a slot's state may change at any step.
- OutboundSettlement.NeverRaises: an exception from reading the roster or from the connection itself is not modelled there; the drain's step system has a settlement that fails.
- WorkerLoop.NoWakeupIsLost: says nothing once a stop is requested, as workers then exit without draining.
- Drain.EveryLeaseIsAccountedFor: the tokens of other processes are not modelled; a lease they reclaim simply ceases to be this process's.
