# Verified model of the inbox server

The inbox server collects items from sources and delivers them to destinations through a lease queue, one job row
per dedupe key, one effect row per job and destination, encrypted envelopes, dead letters and an idempotent replay.
This project models that protocol and the algorithms around it, and proves what they keep over whole runs.

`dafny verify dfyconfig.toml` checks everything. Dafny 4.11 is enough; the project uses no library.

How the files fit together:

- `Store.dfy` and `Effects.dfy` give each committed transaction as a function of the tables. `Database.dfy` is the
  imperative form: a class whose methods run the statements one after the other and are proved to leave exactly
  those tables and to give exactly those answers.
- `Protocol.dfy` interleaves the transactions. A run is any list of steps by any number of workers, the queue's
  producers and an operator; every step carries its own clock reading, and clocks need not agree or advance.
  A worker that crashes simply takes no further step. `Ledger.dfy`, `History.dfy`, `Claims.dfy`,
  `Reports.dfy`, `Replays.dfy`, `CollectionRuns.dfy` and `Audit.dfy` prove what holds in every state of every run,
  `Deferral.dfy` what a deferred message goes through in a run in which its leases are settled. `Witnesses.dfy` gives
  concrete runs that reach the states one might take to be impossible.
- `QueueProcessor.dfy` is the worker loop and `DispatchHandler.dfy` the destination loop, as programs against those
  tables with other parties' steps between any two calls. `EffectRuns.dfy` is the timed machine of effect claims, and
  `Fulfilment.dfy` puts jobs and effects together: a done item has been delivered once to each of its destinations.
- `RateLimit.dfy`, `RateBound.dfy`, `OptimisticRate.dfy` and `SharedRate.dfy` are the batch rate limit: the decision, what
  it bounds, why a version check makes it atomic, and so what any number of concurrent callers get.
- `SyncRun.dfy`, `Heartbeats.dfy`, `QueueProducer.dfy`, `Predicates.dfy`, `RowDigest.dfy`, `Migration.dfy` and
  `ReleaseExecutor.dfy` are the self-contained pieces; `Ordering.dfy` is `ORDER BY` with a limit.

Where the code differs from what one might expect, the model follows the code, and the results say so:

- An effect's result is recorded without looking at the row's status, so "at most one success per key" is false in
  general. The law of every run is `EffectRuns.OksAreDoneAndOverwrites`: the recorded successes of a key are the one its
  row shows, if it is done, plus one for every record that found the row done. A record keeps the number of successes
  at one if the row is done and none if it is not, exactly if the row it found was not done
  (`EffectRuns.StepKeepsBalance`).
  `EffectRuns.TwoSuccesses` is such a run. If no clock goes back and every claimer records within ten minutes or never,
  no record finds its row done (`EffectRuns.AtMostOneOk`).
- For the same reason "done and uncertain are final" is false of effects: `EffectRuns.SuccessUndone` reopens a done key by
  a failure recorded in time, after another claimer's late record. A key stays done or uncertain through a run exactly
  if no failure is recorded for it (`EffectRuns.FrozenExactlyWhen`), and keeps its very status exactly if no other result
  is (`EffectRuns.StatusExactlyWhen`).
- `dead_without_dlq` is not empty in every reachable state: a report lists a dead job whose letter is later than the
  instant the report froze (`Audit.UnfiledMeansLateClock` has the exact condition). One clock is enough, because that
  instant is read before the queries run: `Witnesses.UnfiledIsReachable`.
- `missing_envelope` and `orphan_dlq` are reachable: `Witnesses.MissingEnvelopeIsReachable` and
  `Witnesses.OrphanIsReachable`. A re-claim may also give a row a new job id while its envelope stays under the first one.
- A worker verdict read through the cache can differ from the table's if the newest heartbeat is more than 30 seconds
  ahead of the request's clock, and only then (`Heartbeats.VerdictsDiffer`); `Heartbeats.VerdictCanDiffer` is such a run
  under one clock that never goes back.
- A request to collect whose jobs the queue refuses writes "failed" into its run row although no source has reported
  (`Witnesses.FailedWithoutReports`), and a job that reached the queue all the same overwrites that with its
  report (`Witnesses.FailureOverwritten`). `CollectionRuns.RunSettledByReports` says exactly when the row is the one the
  reports make.
- A consumption keeps the entries of its own buckets only (`SharedRate.OnlyOwnBucketsStay`), so one under a key computed
  before the window turned makes the new window's count start over (`SharedRate.StaleKeyForgets`). An entry is kept
  exactly up to the first consumption under another key (`SharedRate.KeptExactlyWhile`), and a bucket admits at most its
  limit each time consumption turns to it (`SharedRate.BoundPerTurn`): keys that never go back keep the bound.
- Compensation never touches the failing step itself, so a step that failed half-way stays half-way
  (`ReleaseExecutor.HalfDoneStays`, and exactly when in `ReleaseExecutor.RestoredExactlyWhen`).

Assumptions built into the model:

- A committed transaction is one atomic step with one clock reading; row locks and advisory locks only serialise,
  and SKIP LOCKED leaves out a given set of rows.
- One job id is never used with two dedupe keys, lease ids are fresh, SHA-256 and encryption are injective, and replay
  message ids are disjoint from staged ones. The first and the last two are built into the types in `Identifiers.dfy`.
- Rate limits are at least 1, the policies of one batch have distinct scopes, and the bucket key and the decision are
  computed at the same instant. In `RateBound.dfy`, `OptimisticRate.dfy` and
  `SharedRate.dfy` that instant never goes back. Elsewhere clocks may disagree unless a result says that they do not:
  the effect results under `AllInTime`, those of `Fulfilment.dfy` for the effect steps, and those of `Deferral.dfy`.
- ISO timestamps and `Date.parse` are inverse to each other, so every time column is a number of milliseconds.

## Model

| member | source | states |
|---|---|---|
| `Protocol.NoStrandedJob` | apps/worker/src/queue-processor.ts:43-196 | In every state of every run of any number of workers, the queue and an operator, with crashes anywhere, a job row that is not terminal has an inbox message that carries it and whose current lease nobody has decided to acknowledge |
| `Protocol.EveryMessageComesDue` | apps/api/src/queue-inbox-postgres.ts:44-59 | A pull may hand a message out exactly from its availability on, or from the end of its lease on if it is leased |
| `History.ComesRoundAgain` | apps/api/src/queue-inbox-postgres.ts:44-83 | A job that is not over comes round again: one of its messages is eligible for every pull whose clock has reached the end of its lease and the clocks of the pulls before, through any steps that neither hand out nor settle that message |
| `Protocol.StepKeepsQueue` | apps/api/src/queue-inbox-postgres.ts:40-133 | Every single step keeps the queue invariant: leases match what was handed out, decided acknowledgements have job rows, a handed-out job without a row still has its message, recorded replays name their messages, nothing is stranded |
| `Protocol.AckMeansTerminal` | apps/api/src/control-plane-postgres.ts:123-254 | A report is answered with an acknowledgement exactly when it leaves, or found, the row terminal |
| `Database.Database.ClaimJob` | apps/api/src/control-plane-postgres.ts:44-121 | The statement-by-statement claim leaves exactly the tables and the answer of the claim transition: insert with an envelope only for articles, duplicate, deferred, busy, or re-claim that may rewrite the job id |
| `Claims.AnswersExactly` | apps/api/src/control-plane-postgres.ts:85-105 | Each answer of a claim in terms of the row: duplicate for a row that is done, dead or uncertain, deferred exactly up to its instant, busy exactly while a row being processed is at most 600 000 ms old, granted otherwise with one more attempt |
| `Claims.GrantedExactly` | apps/api/src/control-plane-postgres.ts:94-120 | A failed row, a deferred row that is due, a row processed for more than 600 000 ms and a new key are granted, and nothing else is |
| `Claims.GrantsAreApart` | apps/api/src/control-plane-postgres.ts:107-116 | Over runs: two grants of one key with neither a report nor a publication for it in between carry clocks more than 600 000 ms apart |
| `Claims.SilentIsTakenOver` | apps/api/src/control-plane-postgres.ts:107-120 | And the job of a worker that fell silent is granted to the next claim whose clock is more than 600 000 ms on |
| `Database.Database.FinishJob` | apps/api/src/control-plane-postgres.ts:123-254 | The statement-by-statement report leaves exactly the tables and the answer of the finish transition, for all four outcomes and both errors |
| `Reports.ReportTooLate` | apps/api/src/control-plane-postgres.ts:126-136 | A report on a missing row is an error and one on a finished row is acknowledged; neither changes a table |
| `Reports.ReportOnLiveJob` | apps/api/src/control-plane-postgres.ts:138-176 | Done, uncertain and deferred reports on a live row: the status each one leaves, the answer, and what becomes of the envelope and the deferral columns; the failure budget stays |
| `Reports.DelayIsLeast` | apps/worker/src/queue-processor.ts:220-225 | A deferral waits for the fewest whole seconds, from 1 to 300, that reach its instant |
| `Reports.FailureExactly` | apps/api/src/control-plane-postgres.ts:180-252 | Over runs: a failed report on a live row kills it, given a digest, exactly if its class is not retryable or two reports of this life have failed before; then the letter and the envelope say so; otherwise the row is failed and waits 30 seconds after the first failure and 60 after the second |
| `Reports.RowsInShape` | apps/api/src/control-plane-postgres.ts:44-254 | In every reachable state the columns of a row fit its status: who has a finish time, an error, a deferral, a summary |
| `Reports.ArticlesAreSealed` | apps/api/src/control-plane-postgres.ts:64-75 | In every reachable state an article that is not done has an envelope, the one its first claim filed |
| `Database.Database.RecordFailure` | apps/api/src/control-plane-postgres.ts:180-253 | The failed branch: one more attempt with its delay, or the dead row, letter, envelope and run together |
| `Database.Database.FileLetter` | apps/api/src/control-plane-postgres.ts:221-245 | Filing a letter again replaces its columns but keeps key and kind of the first |
| `Database.Database.UpdateSyncJobCompletion` | apps/api/src/control-plane-postgres.ts:291-321 | Only a collection job reports, only to an existing run, and only that run row changes |
| `Database.Database.RejectInvalidJob` | apps/api/src/control-plane-postgres-data.ts:261-280 | The statement-by-statement rejection leaves exactly the tables of the rejection transition |
| `Reports.BadBodyOnFile` | apps/api/src/control-plane-postgres-data.ts:261-280 | Over runs: the first rejection of a message files a permanent letter that names no job, and neither later rejections nor any other step ever change it |
| `Database.Database.ReplayDeadLetter` | apps/api/src/control-plane-postgres-replay.ts:42-186 | Statement by statement the replay leaves exactly the tables and the answer of the replay transition, every refusal in its order; an effect that is settled refuses as done or as uncertain, as the row found says |
| `Replays.AnswersInRun` | apps/api/src/control-plane-postgres-replay.ts:42-124 | In a reachable state the answer follows from plain questions asked in order: is the job over or an effect of it settled, was the key used and for which job, does the letter point at an envelope, is it there and the job dead, is it a dry run |
| `Replays.RepeatIsAnsweredAlike` | apps/api/src/control-plane-postgres-replay.ts:67-86 | After a publication the same request is answered as it was, whatever has happened since, and another job is refused under that key, while the job asked for is open |
| `Replays.MatchedCanBeReplayed` | apps/api/src/control-plane-postgres-replay.ts:88-124 | A letter the audit calls matched can be published under any new key, as long as no effect of its job is settled |
| `Database.Database.PublishReplay` | apps/api/src/control-plane-postgres-replay.ts:126-182 | The writes of a publication: operation, message, row and envelope, nothing else |
| `Database.Database.ClaimEffect` | apps/api/src/control-plane-postgres-effects.ts:38-80 | The claim of a side effect row: new, done, uncertain, busy until a named instant, or taken over |
| `Database.Database.FinishEffect` | apps/api/src/control-plane-postgres-effects.ts:173-193 | The unguarded record of a side effect's result |
| `Database.Database.StageMessages` | apps/api/src/queue-inbox-postgres.ts:117-132 | Staging adds each message at most once and leaves existing rows alone |
| `Database.Database.SelectCandidates` | apps/api/src/queue-inbox-postgres.ts:51-59 | The candidates are the first `batchSize` eligible, unlocked rows by creation time and message id |
| `Database.OldestFirst` | apps/api/src/queue-inbox-postgres.ts:51-59 | Spelled out: every chosen row may be taken, they come oldest first with the message id deciding ties, no row that is left may be taken before one that is chosen, and fewer than the limit are chosen only if no other may be |
| `Database.Database.Pull` | apps/api/src/queue-inbox-postgres.ts:40-89 | A pull reclaims expired leases first, then leases exactly those candidates, reclaimed ones included, under the given lease ids, and hands out what the rows hold |
| `Database.Database.LeaseRows` | apps/api/src/queue-inbox-postgres.ts:64-83 | The lease loop turns the chosen rows, and no other, into leases and counts the attempt |
| `Database.Database.Settle` | apps/api/src/queue-inbox-postgres.ts:91-115 | The two settle loops do what the settlement says line by line, the first line for a lease deciding; a lease named on both sides is refused with nothing changed |
| `History.SettleExactly` | apps/api/src/queue-inbox-postgres.ts:96-113 | A settlement removes exactly the messages whose current lease it acknowledges, leaves every row alone whose lease it does not name, and puts the others back for the delay of the first line that names them |
| `History.AckedIsGone` | apps/api/src/queue-inbox-postgres.ts:96-101 | Over runs: once the current lease of a message is acknowledged the message is out of the inbox, and no pull hands it out, until a staging or a publication inserts it again |
| `History.StagedIsDue` | apps/api/src/queue-inbox-postgres.ts:117-132 | A message that is staged for the first time may be handed out at once, with the body it came with |
| `Ordering.FirstInOrderUnique` | apps/api/src/queue-inbox-postgres.ts:55-56 | Order and limit leave no choice: two answers to the candidate query on one state are equal |
| `Ordering.FirstExists` | apps/api/src/queue-inbox-postgres.ts:55-56 | A non-empty set of rows has a first one in any order in which its elements compare, the queue's order among them |
| `History.LeaseExclusive` | apps/api/src/queue-inbox-postgres.ts:44-83 | Until it is settled or runs out, a lease keeps its message and no pull hands that message to anybody else |
| `History.LeaseNeverReturns` | apps/api/src/queue-inbox-postgres.ts:60-83 | A lease that is no longer the current lease of its message never is again |
| `History.StaleSettleIsNoOp` | apps/api/src/queue-inbox-postgres.ts:96-113 | Settling only reclaimed or used lease ids leaves the inbox as it is |
| `History.AttemptsCountHandOuts` | apps/api/src/queue-inbox-postgres.ts:66-83 | `attempts` is the number of times the message was handed out since it entered the inbox |
| `Ledger.LedgerInvHolds` | apps/api/src/control-plane-postgres.ts:206-252 | In every reachable state envelopes, letters, rows and operations fit together: an envelope is dead only while the row with its job id is dead, a key has at most one envelope, a dead row has its letter, a live row has failed at most twice |
| `Ledger.PublishesIff` | apps/api/src/control-plane-postgres-replay.ts:50-115 | In such a state a replay is published exactly if it is no dry run, its key is new, the job is dead, its envelope is there, and no effect of that job id is done or uncertain |
| `Ledger.PublicationEffect` | apps/api/src/control-plane-postgres-replay.ts:126-182 | What one publication changes, row by row, and that it changes nothing else |
| `History.ReplaysMatchDeaths` | apps/api/src/control-plane-postgres-replay.ts:158-171 | Over any run a job's publications equal its deaths, less one while it is dead |
| `History.KeyPublishesOnce` | apps/api/src/control-plane-postgres-replay.ts:67-86 | An idempotency key publishes at most once in a whole run, and is on record exactly if it did |
| `History.PublicationInRun` | apps/api/src/control-plane-postgres-replay.ts:158-182 | Each publication moves exactly one row, from dead to failed with a fresh budget, and adds exactly one message, which was not there before, carries the sealed job, and is eligible at once |
| `History.DryRunChangesNothing` | apps/api/src/control-plane-postgres-replay.ts:117-124 | A dry run, a repeated key and a refusal leave every table as it was |
| `History.BudgetCountsFailures` | apps/api/src/control-plane-postgres.ts:180-204 | `failure_attempts` counts exactly the failed reports since the row was made or last replayed; deferrals, busy answers and re-claims leave it alone |
| `History.BudgetBound` | apps/api/src/job-retry-policy.ts:57-62 | At most three failed reports a life, at most two on a row that can still run |
| `History.FailureDelays` | apps/api/src/control-plane-postgres.ts:197-203 | The wait after a failure is 30 seconds the first time and 60 the second |
| `History.DoneIsForEver` | apps/api/src/control-plane-postgres.ts:87-93 | A done or uncertain row is never changed again, by any continuation of the run |
| `History.TerminalMoves` | apps/api/src/control-plane-postgres.ts:134-136 | A terminal row changes only by a publication of its own job, and only from dead |
| `History.DeadMoves` | apps/api/src/control-plane-postgres.ts:206-252 | A job dies only by a dead-letter verdict on a live row and revives only by a publication |
| `QueueProcessor.ProcessQueueBatch` | apps/worker/src/queue-processor.ts:29-197 | With other workers' steps between any two calls and with calls that fail before or after their commit: the batch returns normally unless a call threw. Then every lease is settled once: acknowledged exactly if its last call was a rejection put on file, a claim answered duplicate or a report answered with an acknowledgement, and else put back for the seconds that the acceptance, the claim or the report says. Every acknowledgement was justified at some moment of the run, and none of the leases is in force afterwards |
| `QueueProcessor.DecideBatch` | apps/worker/src/queue-processor.ts:43-194 | The loop makes those calls lease by lease and keeps the partition, the delays and the justifications; it ends early only when a call threw |
| `QueueProcessor.ProcessLease` | apps/worker/src/queue-processor.ts:44-194 | The calls made for one lease, their order and arguments (a bad body is rejected with its attempts, the classified parse error and its digest), and that its last reply alone decides: acknowledged, or the seconds to wait, or thrown |
| `QueueProcessor.RunHandler` | apps/worker/src/queue-processor.ts:101-190 | After a granted claim: report the outcome; whatever throws is reported as a failure; an answered report acknowledges or waits as the answer says; if reporting the failure throws too, the lease gets no line |
| `QueueProcessor.PartitionIsDisjoint` | apps/api/src/queue-inbox-postgres.ts:160-167 | For such a partition of distinct leases the distinct-lease check cannot fire |
| `QueueProcessor.SettlementEnds` | apps/api/src/queue-inbox-postgres.ts:96-113 | No lease named in a settlement is in force after it |
| `QueueProcessor.PullIsStep` | apps/api/src/queue-inbox-postgres.ts:40-89 | What the statements of `pull` hand out is an enabled step of the protocol: different due messages under fresh lease ids, at most `batchSize`; the worker holds every line it is given and its lease is in force |
| `QueueProcessor.Service.PullBatch` | apps/worker/src/queue-processor.ts:29-43 | Pulling a batch, with other clients' steps before it, extends the run by that step and returns distinct held leases that are in force |
| `Deferral.SettledRetryWaits` | apps/api/src/queue-inbox-postgres.ts:102-113 | A lease settled with a delay makes its message eligible exactly when that delay is over |
| `Deferral.WaitReaches` | apps/worker/src/queue-processor.ts:220-225 | The delay is the shortest one of whole seconds, from 1 to 300, that does not end before the earlier of `retryAt` and 300 seconds after the decision |
| `Deferral.DeferralsAreBounded` | apps/api/src/control-plane-postgres.ts:94-104 | In every run that goes on with the clock not going back and the message's leases settled by the worker loop's own lines, at most ceil(R/300 s) - 1 further claims are answered deferred, with R left to wait when the job was deferred |
| `Deferral.NotTouchedBefore` | apps/worker/src/queue-processor.ts:74-125 | In every such run no pull hands the message out, and no call is made for it, before the earlier of `retryAt` and 300 seconds after the delay was worked out |
| `Deferral.ReportDefers` | apps/api/src/control-plane-postgres.ts:138-160 | A deferred report leaves the row deferred until the instant it names |
| `Witnesses.BoundIsReached` | apps/api/src/control-plane-postgres.ts:94-104 | A concrete run with 400 seconds to wait in which the one further answer the bound allows is given |
| `Deferral.ClaimedOnceDue` | apps/api/src/control-plane-postgres.ts:94-104 | A deferred job is granted to the first delivery at or after `retryAt` and to none before |
| `SyncRun.RunFollowsReports` | apps/api/src/operations.ts:100-144 | After any distinct reports of queued sources, the run is running until the last one; then it is failed if and only if some source failed, with the error of the first failed source in queued order |
| `SyncRun.FailureMeansFailed` | apps/api/src/operations.ts:134-143 | Spelled out on the reports themselves: a settled, finished run is failed exactly if a failed report came in |
| `SyncRun.ResultSays` | apps/api/src/operations.ts:100-133 | What a report counts as: the two numbers of its summary, or 0 where they are missing or negative, or its error |
| `SyncRun.Confluence` | apps/api/src/operations.ts:100-144 | Two orders of the same reports give the same stats, status and error |
| `CollectionRuns.CollectEndsOnce` | apps/api/src/control-plane-postgres.ts:64-75 | A collection job has no envelope, so no replay revives it: over any run it ends at most once |
| `CollectionRuns.ReportsAreDistinct` | apps/api/src/control-plane-postgres.ts:134-136 | No source reports twice to one run |
| `CollectionRuns.RunRowReplaysReports` | apps/api/src/operations-postgres.ts:132-181 | The stored run row is what its reports, in the order they came, make of the row it was opened as; a failure to publish written since the last of them shows in status, error and time and never in the stats |
| `CollectionRuns.RunSettledByReports` | apps/api/src/operations.ts:268-307 | In every reachable state the row of a run is settled by the set of its reports, whichever came first, exactly if no failure to publish was written since the last report, or the failure happens to say what the reports say; the stats always are |
| `SyncRun.SettledAfterFailure` | apps/api/src/operations-postgres.ts:164-179 | A failure to publish over a settled row leaves it settled exactly if the row failed with that text anyway |
| `Witnesses.FailedWithoutReports` | apps/api/src/operations-postgres.ts:164-179 | A run whose row is failed although no source has reported |
| `Witnesses.FailureOverwritten` | apps/api/src/control-plane-postgres.ts:291-321 | A run whose failed row is turned into a done one by the report of a job that reached the queue all the same |
| `Audit.PostgresReport` | apps/api/src/operations-readiness-postgres.ts:222-243 | The counting loop gives per category the number of its letters, the first twenty of them in text order, and the totals |
| `Audit.D1Report` | apps/api/src/operations-readiness.ts:332-369 | The other implementation's loops over looked-up records give the same per category |
| `Audit.ReportsAgree` | apps/api/src/operations-readiness-postgres.ts:190-245 | On one snapshot both implementations return the same report, the one the sets of letters describe, whatever order their queries deliver rows in; its letter categories add up to the letters |
| `Audit.CategoryExactly` | apps/api/src/operations-readiness-postgres.ts:379-394 | The category of a letter on any snapshot, reachable or not, in terms of the rows: which letters are orphans, replayed, historical, without envelope, anomalous or matched |
| `Audit.CategoryInRun` | apps/api/src/operations-readiness-postgres.ts:379-394 | In a reachable state the category of a letter is decided by three questions only: is there such a job, was it replayed, is the envelope there |
| `Audit.NoAnomaly` | apps/api/src/operations-readiness-postgres.ts:379-394 | No run reaches `integrity_anomaly` or `historical_migration` |
| `Audit.UnfiledMeansLateClock` | apps/api/src/operations-readiness-postgres.ts:191-220 | `dead_without_dlq` lists a job exactly when it is dead and its letter is later than the instant the report froze |
| `Audit.DeadJobsSplit` | apps/api/src/operations-readiness-postgres.ts:224-232 | Dead jobs are the letters of dead jobs and the dead jobs without a letter, each once |
| `Witnesses.UnfiledIsReachable` | apps/api/src/operations-readiness-postgres.ts:191-220 | A run and a report that lists its dead job in `dead_without_dlq` |
| `Witnesses.MissingEnvelopeIsReachable` | apps/api/src/operations-readiness-postgres.ts:379-394 | A run that puts a letter into `missing_envelope` |
| `Witnesses.OrphanIsReachable` | apps/api/src/operations-readiness-postgres.ts:379-394 | A run that puts a letter into `orphan_dlq` |
| `EffectRuns.OksAreDoneAndOverwrites` | apps/api/src/control-plane-postgres-effects.ts:173-193 | In every run, with late results and disagreeing clocks, the successes recorded for a key are one if its row is done plus the records that found it done |
| `EffectRuns.StepKeepsBalance` | apps/api/src/control-plane-postgres-effects.ts:177-189 | One record keeps the successes equal to whether the row is done exactly if the row it found was not done |
| `EffectRuns.AtMostOneExactlyWhen` | apps/api/src/control-plane-postgres-effects.ts:177-189 | At most one success is recorded for a key exactly if no record found its row done, or just one did and the row is not done in the end |
| `EffectRuns.FrozenStep` | apps/api/src/control-plane-postgres-effects.ts:177-189 | A step leaves a done or uncertain key done or uncertain exactly if it records no failure for it, keeps its status exactly if it records no other result, and leaves the row as it is if it records nothing |
| `EffectRuns.FrozenExactlyWhen` | apps/api/src/control-plane-postgres-effects.ts:177-189 | A done or uncertain key stays so through a whole run, whatever the clocks, exactly if no step of the run records a failure for it |
| `EffectRuns.StatusExactlyWhen` | apps/api/src/control-plane-postgres-effects.ts:177-189 | A done key stays done through a whole run, and an uncertain one uncertain, exactly if no step records another result for it |
| `EffectRuns.NextClaim` | apps/api/src/control-plane-postgres-effects.ts:59-78 | No delivery starts for a done or uncertain key, and after one more step the next claim is granted exactly if that step recorded a failure for the key |
| `EffectRuns.AnswersExactly` | apps/api/src/control-plane-postgres-effects.ts:59-78 | The answer of a claim in terms of the row: done, uncertain, busy exactly while it is being processed for at most 600 000 ms, with the end of that, and granted otherwise |
| `EffectRuns.OneHolder` | apps/api/src/control-plane-postgres-effects.ts:59-78 | If no clock goes back and every claimer records its result within ten minutes or never, an effect key has at most one live holder in every state of every run |
| `EffectRuns.FrozenForEver` | apps/api/src/control-plane-postgres-effects.ts:60-61 | Then no failure is recorded for a done or uncertain effect, its row is never written again, and no delivery starts for its key |
| `EffectRuns.AtMostOneOk` | apps/api/src/control-plane-postgres-effects.ts:173-193 | Then no record finds its row done, at most one delivery per key is ever recorded as successful, and the row is done exactly when one was |
| `EffectRuns.BusyUntil` | apps/api/src/control-plane-postgres-effects.ts:62-67 | A busy answer names the last instant at which the key is still busy |
| `EffectRuns.TwoSuccesses` | apps/api/src/control-plane-postgres-effects.ts:177-189 | A run in which two deliveries of one key are recorded as successful, the second in time and over a done row |
| `EffectRuns.SuccessUndone` | apps/api/src/control-plane-postgres-effects.ts:177-189 | A run in which a failure recorded in time reopens a done key, which is then granted again |
| `DispatchHandler.Dispatch` | apps/worker/src/job-handler.ts:115-224 | The whole handler of an item, with other claimers between any two calls. An article whose rate limit is refused, or cannot be asked for, starts nothing. Otherwise it completes, or stops at one destination: those before it are done, nothing behind it is started, and the outcome is what that destination says (busy up to the end of somebody's claim, uncertain, refused, over quota or over its rate limit) or a call that threw. Each key is started at most once and, unless somebody has recorded late or a clock went back, none that was done or uncertain. A completed link is followed by its article job, and nothing else is published |
| `DispatchHandler.HandleDestination` | apps/worker/src/job-handler.ts:126-197 | One destination: a done key goes on, an uncertain one stops, one that somebody holds defers until that claim runs out, a granted one is delivered if its rate limit allows; it stops without a word only when a call threw |
| `DispatchHandler.DeliverClaimed` | apps/worker/src/job-handler.ts:143-196 | A granted destination is delivered exactly if its rate limit allows, and its outcome and its row are those of the delivery; results are sent however late |
| `DispatchHandler.DoubtExactly` | apps/worker/src/job-handler.ts:156-196 | A delivery ends uncertain exactly if it threw, or was refused with no status or with 500 and above and not known to come before the write; any other refusal and a full quota fail the job, and only a success goes on |
| `DispatchHandler.DestinationsInOrder` | apps/worker/src/job-handler.ts:272-279 | Exactly the enabled channels of the item's kind, each once and in channel order, then the archive for an article if that is enabled |
| `Fulfilment.OneTable` | apps/api/src/control-plane-postgres-effects.ts:38-193 | The effect table of a run of the whole system is the one the machine of effect claims reaches by the run's effect steps |
| `Fulfilment.SettledByReport` | apps/api/src/control-plane-postgres.ts:123-176 | A job row becomes done or uncertain only by a report that says so on a lease of that job |
| `Fulfilment.JobsAreFulfilled` | apps/worker/src/job-handler.ts:115-224 | In every state of every run with results in time and with items reported as the destination loop found them, across crashes, re-claims, duplicates and replays: a done item has the effect of each of its destinations done, and an uncertain item has an uncertain one |
| `Fulfilment.DeliveredOnce` | apps/worker/src/job-handler.ts:126-170 | In such a run exactly one delivery is on record as successful for each destination of a done item, and at most one for any destination of any item |
| `Witnesses.DeliveredIsReachable` | apps/worker/src/job-handler.ts:126-170 | A run that meets these hypotheses and delivers its item |
| `RateLimit.DecideRateLimitBatch` | apps/api/src/job-retry-policy.ts:65-111 | The loop returns what a decision must be: refused with the latest expiry among refusing buckets if any bucket refuses, else all buckets consumed |
| `RateLimit.DecisionUnique` | apps/api/src/job-retry-policy.ts:65-111 | There is only one such decision |
| `RateBound.PoliciesAligned` | apps/worker/src/job-handler.ts:338-379 | The window and the daily policy number aligned windows of the clock |
| `RateBound.WindowBound` | apps/api/src/job-retry-policy.ts:77-92 | Every aligned window admits at most `limit`, whatever batch of policies shares the decision |
| `RateBound.SlidingBound` | apps/api/src/job-retry-policy.ts:77-92 | Any interval as long as the window admits at most twice `limit` |
| `RateBound.RetryIsAdmitted` | apps/api/src/job-retry-policy.ts:94-103 | A refused batch asked again at its `retryAt` or later, with nothing consumed in between, is admitted |
| `RateBound.RefusedExactlyWhenFull` | apps/api/src/job-retry-policy.ts:77-103 | Over any attempts: a batch is refused exactly if some policy's window has admitted its limit, and `retryAt` is the latest instant at which the first admission of a full window is one window's length ago |
| `RateBound.CountsSay` | apps/api/src/job-retry-policy.ts:77-111 | The count a decision names for a policy is how many attempts its window has admitted, this one included |
| `OptimisticRate.RowIsSerial` | apps/api/src/control-plane.ts:438-487 | For any number of interleaved callers, optimistic or locked, the stored row is exactly its version's number of admitted consumptions applied one after the other at times that never go back; a caller added one if it was told allowed and none otherwise |
| `OptimisticRate.StepSound` | apps/api/src/control-plane.ts:442-485 | Every read, decision and versioned write keeps that |
| `OptimisticRate.RateTable.ConsumeOptimistically` | apps/api/src/control-plane.ts:438-487 | The five-try loop as written, with other consumptions between its reads and writes: it adds one consumption exactly when it answers allowed, a refusal was right about a version the row had during the call, at an instant during the call, and it gives up only after five attempts that each lost to somebody else's consumption |
| `OptimisticRate.RateTable.ConsumeLocked` | apps/api/src/control-plane-postgres-effects.ts:132-171 | The locked form answers and consumes by the row as it is, and cannot contend |
| `OptimisticRate.UnmovedMeansSame` | apps/api/src/control-plane.ts:456-468 | A version that has not moved means that nobody consumed in between |
| `SharedRate.SharedBound` | apps/api/src/control-plane.ts:438-487 | However the callers' reads, decisions and writes interleave, each window of each policy admits at most `limit` and any interval of the window's length at most twice that |
| `SharedRate.OnlyOwnBucketsStay` | apps/api/src/job-retry-policy.ts:77-111 | A consumption leaves entries for exactly the buckets of its own inputs |
| `SharedRate.StaleKeyForgets` | apps/api/src/job-retry-policy.ts:77-111 | With a limit of one, a consumption under the old bucket key lets the new window admit two |
| `SharedRate.KeptExactlyWhile` | apps/api/src/job-retry-policy.ts:70-92 | For any consumptions under any keys: until it expires, an entry goes on counting exactly up to the first consumption that is not from its bucket |
| `SharedRate.BoundPerTurn` | apps/api/src/job-retry-policy.ts:77-92 | For any keys, the consumptions from a bucket within one window's length are at most `limit` for each time consumption turns to that bucket |
| `SharedRate.OrderedKeysBound` | apps/api/src/job-retry-policy.ts:77-92 | If the keys of the scope never go back, stale or not, they are at most `limit` |
| `SharedRate.SharedOrderedKeys` | apps/api/src/control-plane.ts:438-487 | And so for any number of interleaved callers |
| `Heartbeats.CellIsMaximum` | apps/api/src/heartbeat-cache.ts:19-33 | Between evictions the cache holds one of the writes and no write beats it by time and worker id |
| `Heartbeats.OrderIrrelevant` | apps/api/src/heartbeat-cache.ts:19-33 | The order and repetition of writes make no difference to the time and worker it ends up with |
| `Heartbeats.CacheTrailsTable` | apps/api/src/heartbeat-cache.ts:126-165 | In every run with lost, late, repeated and evicted cache writes the cell is that maximum and never newer than the newest row |
| `Heartbeats.VerdictsDiffer` | apps/api/src/operations-readiness-postgres.ts:247-259 | The worker verdict through the cache differs from the table's exactly when the cached beat is fresh and the newest row is more than 30 seconds ahead of the request's clock |
| `Heartbeats.VerdictsAgree` | apps/api/src/operations-readiness-postgres.ts:247-259 | So with a clock that never goes back, and a read at most 30 seconds after the request looked at it, the two verdicts are equal |
| `Heartbeats.VerdictCanDiffer` | apps/api/src/operations-readiness-postgres.ts:247-259 | A run under one clock in which the cached beat and the newest row give different verdicts |
| `Heartbeats.Service.RecordHeartbeat` | apps/api/src/control-plane-postgres-data.ts:240-259 | A heartbeat replaces the worker's row unless that is newer, and at most the newest fresh row is offered to the cache |
| `Heartbeats.Service.ReadLatest` | apps/api/src/heartbeat-cache.ts:126-152 | The read returns the fresh cached beat or the newest row, and its verdict is the table's |
| `Heartbeats.Service.SelectNewest` | apps/api/src/heartbeat-cache.ts:142-146 | The newest row by time, then worker id |
| `Heartbeats.ReadyExactly` | apps/api/src/operations-readiness-postgres.ts:247-259 | A worker is ready exactly if its beat is at most 90 seconds old and at most 30 seconds ahead |
| `Heartbeats.RowIsLatest` | apps/api/src/control-plane-postgres-data.ts:240-259 | Whatever beats come in, the table's row of a worker is one of its beats and none of them is later |
| `QueueProducer.Queue.SendBatch` | apps/api/src/queue-producer.ts:10-31 | If any input is invalid or too large nothing is sent; else the batches hold all messages in order, within both limits, and no order-preserving split within them is shorter; it fails exactly with the first call the platform refuses, and then a prefix has been sent |
| `QueueProducer.GreedyIsOptimal` | apps/api/src/queue-producer.ts:19-30 | A split whose batches have no room for the next message is no longer than any other split |
| `QueueProducer.LimitsExactly` | apps/api/src/queue-producer.ts:12-25 | A job may take 127 900 bytes, and each call carries 1 to 100 jobs and at most 256 000 bytes, a hundred more than its own for each job |
| `Predicates.Normalise` | scripts/migrate_d1_snapshot.py:110-174 | The two index-driven loops compute the normal form; `None` stays `None` |
| `Predicates.Squeeze` | scripts/migrate_d1_snapshot.py:113-147 | The first loop gives up exactly on texts with a comment outside quotes or an open quote, else writes out the text's marks |
| `Predicates.EnclosesAll` | scripts/migrate_d1_snapshot.py:148-172 | The second loop answers whether one pair of parentheses encloses the whole text |
| `Predicates.SqueezedIsCanonical` | scripts/migrate_d1_snapshot.py:113-147 | Two texts are squeezed alike exactly when they have the same marks: the same quoted text character for character, the same unquoted text up to case, and the same meaningful gaps |
| `Predicates.OnlyCaseIsIgnored` | scripts/migrate_d1_snapshot.py:128-147 | Outside quotes two characters may stand for each other exactly if they are one letter in either case |
| `Predicates.QuotedCharactersCount` | scripts/migrate_d1_snapshot.py:119-127 | Inside quotes none may stand for another |
| `Predicates.GapCounts` | scripts/migrate_d1_snapshot.py:128-138 | White space between two characters outside quotes counts unless one of them is `(`, `)`, `,` or `=` |
| `Predicates.Idempotent` | scripts/migrate_d1_snapshot.py:110-174 | Normalising twice is normalising once, for every text |
| `Predicates.WhiteSpaceIgnored` | scripts/migrate_d1_snapshot.py:128-138 | White space at either end or next to `( ) , =` outside quotes is ignored |
| `Predicates.WhiteSpaceAlike` | scripts/migrate_d1_snapshot.py:128-138 | Anywhere else outside quotes one run of white space is as good as another |
| `Predicates.WrappingIgnored` | scripts/migrate_d1_snapshot.py:148-173 | One more pair of parentheses changes nothing exactly when the text is readable and its own are balanced |
| `Predicates.OnlyParenthesesGo` | scripts/migrate_d1_snapshot.py:110-174 | All that is taken from a readable text's marks are enclosing pairs of parentheses, and all of those |
| `RowDigest.DigestIsUnordered` | scripts/migrate_d1_snapshot.py:245-277 | The digest depends only on the multiset of rows |
| `RowDigest.BagSays` | scripts/migrate_d1_snapshot.py:245-277 | What the digest says of the bag of rows: how many there are, the sum of their hashes modulo 2 to the power of 256, and for each bit its parity over the hashes |
| `RowDigest.OneRowTells` | scripts/migrate_d1_snapshot.py:245-277 | Two bags that differ in one row, with different hashes below the modulus, have different digests |
| `RowDigest.DigestRows` | scripts/migrate_d1_snapshot.py:272-277 | The incremental digest of a row sequence |
| `Migration.Target.MigrateSnapshot` | scripts/migrate_d1_snapshot.py:373-411 | The import answers by its verdict function: wrong tables, differing schemas, already migrated, not empty, dry run, applied or mismatch; only an applied import changes rows and sequences, by exactly the snapshot's rows; with a hash that tells rows apart, already-migrated and applied leave no table off by one row |
| `Migration.DifferenceIsNoticed` | scripts/migrate_d1_snapshot.py:388-408 | With a hash that tells rows apart, an import never answers already-migrated or applied while some table differs from the snapshot in one row |
| `Migration.VerdictSays` | scripts/migrate_d1_snapshot.py:373-411 | What each answer says of the target: its tables and their schemas, how many rows they had, whether it was a dry run |
| `Migration.NoMismatch` | scripts/migrate_d1_snapshot.py:405-408 | If storing a row does not change its hash, the final check cannot fail |
| `Migration.ImportGoesThrough` | scripts/migrate_d1_snapshot.py:384-411 | A non-empty snapshot goes into any suitable empty target |
| `Migration.AgainIsAlready` | scripts/migrate_d1_snapshot.py:390-391 | A second import, applied or not, reports already-migrated; with the contract of `MigrateSnapshot` it writes nothing |
| `Migration.Target.ImportTable` | scripts/migrate_d1_snapshot.py:399-403 | Batches of 500 insert every row once |
| `Migration.Target.ResetSequences` | scripts/migrate_d1_snapshot.py:499-514 | Each sequence of the table restarts one above its largest stored value, or stays if there is none |
| `Migration.IdsAreBelow` | scripts/migrate_d1_snapshot.py:499-514 | After an import every stored id is below its sequence |
| `Migration.Copy.ReplaceBusinessRows` | scripts/rehearse_neon_d1_rollback.py:103-149 | Deleting and refilling through the `batch` list leaves exactly the target's rows if the schemas match, counts and digests agree and the copy passes its own checks, in that order; otherwise the copy as it was |
| `Migration.Copy.Refill` | scripts/rehearse_neon_d1_rollback.py:129-136 | The batch that is appended to, flushed at 500 and flushed at the end inserts every row once |
| `Migration.RebuildGoesThrough` | scripts/rehearse_neon_d1_rollback.py:138-145 | If storing back keeps hashes, the copy has the schemas that matched, and it passes SQLite's checks, then the rebuilt copy passes both halves of the final check and is kept |
| `Migration.RebuildNotices` | scripts/rehearse_neon_d1_rollback.py:138-145 | A rebuilt copy that is kept passed SQLite's checks, matches in schema and count, and, with a hash that tells rows apart, is off by one row in no table |
| `Migration.RoundTrip` | scripts/rehearse_neon_d1_rollback.py:103-145 | Snapshot to database to copy gives back every table's rows with their multiplicities, if each row survives being stored and stored back |
| `ReleaseExecutor.Executor.Execute` | packages/release-operations/src/release-executor.ts:51-125 | A dry run and an unconfirmed run execute nothing; otherwise the executed commands and the records are exactly those of a finished, stopped or badly compensated run, and stop at the first failing command |
| `ReleaseExecutor.Executor.Compensate` | packages/release-operations/src/release-executor.ts:147-171 | Rollbacks run from the last completed step to the first, skipping steps without any, and end at the first that fails |
| `ReleaseExecutor.UndoOfMutating` | packages/release-operations/src/release-executor.ts:81-103 | Undoing the list of completed mutating steps is undoing all steps before the failing one |
| `ReleaseExecutor.RecordsInOrder` | packages/release-operations/src/release-executor.ts:51-102 | One record for each step, in order, with its id and number of commands |
| `ReleaseExecutor.UndoRecordsInOrder` | packages/release-operations/src/release-executor.ts:147-171 | Exactly the steps that change something and have rollback commands leave a compensation record, from the last to the first |
| `ReleaseExecutor.CompensationRestores` | packages/release-operations/src/release-executor.ts:104-122 | If every earlier step can be undone and the failing step changed nothing, the system is back where it was |
| `ReleaseExecutor.RestoredExactlyWhen` | packages/release-operations/src/release-executor.ts:115-117 | Where commands and rollbacks are inverse to each other, it is back exactly when the failing step changed nothing |
| `ReleaseExecutor.HalfDoneStays` | packages/release-operations/src/release-executor.ts:104-122 | A plan whose second step does half its work and fails: the first step is undone, the half stays |

## Left out

- The D1 versions of `claimJob`, `claimEffect`, `consumeRateLimit` and the run row update: they read and write without
  a guard, so the concurrent results are not theirs. Of D1 only the versioned batch rate limit and the audit report are
  modelled.
- `consumeRateLimit` for a single bucket: in the destination loop its answer is a parameter.
- HTTP routes, authentication, CORS, zod schemas and the console: `parseQueueJob` is a partial function given as a parameter.
- SQL text, drivers, isolation levels and rollbacks that fail; a transaction commits or does nothing.
- Concurrent publication of one replay key inside one transaction (the second look at the operation row after an
  insert conflict): the advisory lock makes it unreachable in atomic steps.
- Collectors, browser automation and the destinations themselves: a delivery is a success, a quota refusal, a refusal
  before or after the write, or an exception; a collection's result is a parameter of the worker loop.
- Notification messages after a collection.
- Log lines, alert thresholds, retention reports, metrics and the queue summary.
- The 500-character cut of messages is modelled on characters, not on UTF-16 units.
- Predicates.Squeeze: lower-casing is that of ASCII letters; other letters are kept, because their lower-case forms can have
  another length. White space is Python's full list.
- Migration.Target.MigrateSnapshot: column names, keys and type compatibility are one relation between schemas, a
  parameter; constraint violations during the import, and the hexadecimal rendering of digests, are not modelled. The model
  reads the row count as the number of rows of the table.
- Migration.Copy.ReplaceBusinessRows: copying the file, journal modes and what SQLite's two checks look at are not
  modelled; whether they pass is a parameter.
- DispatchHandler.Dispatch: channel names are distinct and none of them is `article_archive`.
- ReleaseExecutor.Executor.Execute: timestamps, descriptions and redacted summaries of the records are left out, and a
  compensation record is told apart by its event, not by the suffix of its id.
- Heartbeats.Service.ReadLatest: a cached text that does not parse counts as an empty cache.
- QueueProducer.Queue.SendBatch: the size of a job's JSON is a parameter.
- Audit.ReportsAgree: both reports are taken on one snapshot; the code runs its queries one after the other without a
  transaction, so a report may mix two states.
- Deferral.DeferralsAreBounded: the message's leases are settled, that is, none runs out and no reply is lost; a lease that
  runs out brings its message back at once, and the bound does not count those claims.
- Fulfilment.JobsAreFulfilled: that an item is reported as the destination loop found it is a hypothesis on the run, in the
  words of that loop's contract; the two loops are not one program. The destinations of an item do not change.
- CollectionRuns.RunSettledByReports: the run queued at least one source, and only queued sources report to it.
- One-off scripts that change rows outside the protocol, and the legacy Python worker.
