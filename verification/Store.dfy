/** The Postgres tables of the inbox job protocol as one value, and every committed transaction
    on them as a function from the tables before to the tables after. A transaction that throws
    rolls back, so its function returns the tables unchanged. */
module Store {
  import opened Basics
  import opened Identifiers
  import opened Effects
  import SyncRun

  // ------------------------------------------------------------------ tables

  datatype LeaseState = Queued | Leased(leaseId: LeaseId, until: Instant)

  datatype InboxRow = InboxRow(
    body: Body,
    state: LeaseState,
    attempts: nat,
    availableAt: Instant,
    timestampMs: int,
    createdAt: Instant,
    updatedAt: Instant)

  type Inbox = map<MessageId, InboxRow>

  datatype JobStatus = Processing | Deferred | Failed | Done | Dead | Uncertain

  datatype JobRow = JobRow(
    jobId: JobId,
    kind: JobKind,
    status: JobStatus,
    attempts: nat,
    failureAttempts: nat,
    deferralCount: nat,
    deferredUntil: Option<Instant>,
    deferredReason: Option<string>,
    summary: Option<SyncRun.Summary>,
    errorClass: Option<ErrorClass>,
    errorMessage: Option<string>,
    createdAt: Instant,
    updatedAt: Instant,
    finishedAt: Option<Instant>)

  type Jobs = map<DedupeKey, JobRow>

  datatype EnvelopeStatus = Active | EnvelopeDead | EnvelopeUncertain

  /** `sealed` is what the ciphertext decrypts and parses to. */
  datatype EnvelopeRow = EnvelopeRow(
    dedupeKey: DedupeKey,
    schemaVersion: int,
    digest: Digest,
    sealed: Body,
    status: EnvelopeStatus,
    createdAt: Instant,
    updatedAt: Instant)

  type Envelopes = map<JobId, EnvelopeRow>

  /** Dead letters are keyed by a job id, or by the message id of a body that did not parse. */
  datatype LetterId = ForJob(jobId: JobId) | ForMessage(messageId: MessageId)

  datatype LetterRow = LetterRow(
    dedupeKey: Option<DedupeKey>,
    kind: Option<JobKind>,
    attempts: nat,
    errorClass: ErrorClass,
    errorMessage: string,
    digest: Digest,
    envelopeJobId: Option<JobId>,
    createdAt: Instant)

  type Letters = map<LetterId, LetterRow>

  datatype OperationRow = OperationRow(jobId: JobId, messageId: MessageId, published: bool, createdAt: Instant)

  datatype Db = Db(
    inbox: Inbox,
    jobs: Jobs,
    envelopes: Envelopes,
    letters: Letters,
    operations: map<IdempotencyKey, OperationRow>,
    effects: EffectTable,
    runs: map<RunId, SyncRun.RunView>)

  const EMPTY: Db := Db(map[], map[], map[], map[], map[], map[], map[])

  predicate Terminal(status: JobStatus) { status == Done || status == Dead || status == Uncertain }

  /** `SELECT … FROM worker_jobs WHERE job_id = $1` finds a row. Since a job id fixes its dedupe
      key, the only row that can match is the one under that key. */
  predicate HasJob(jobs: Jobs, j: JobId) { j.key in jobs && jobs[j.key].jobId == j }

  // ------------------------------------------------------------ claim a job

  datatype ClaimAnswer =
    | Claimed(attempts: nat)
    | Duplicate
    | Busy
    | Waiting(reason: string, retryAt: Instant)

  function ClaimAnswerFor(jobs: Jobs, job: Job, now: Instant): ClaimAnswer {
    if job.DedupeKey() !in jobs then Claimed(1)
    else
      var row := jobs[job.DedupeKey()];
      if Terminal(row.status) then Duplicate
      else if row.status == Deferred && row.deferredUntil.Some? && row.deferredUntil.value > now then
        Waiting(GetOr(row.deferredReason, "deferred"), row.deferredUntil.value)
      else if row.status == Processing && !IsStale(row.updatedAt, now) then Busy
      else Claimed(row.attempts + 1)
  }

  function FreshJob(job: Job, now: Instant): JobRow {
    JobRow(job.jobId, job.kind, Processing, 1, 0, 0, None, None, None, None, None, job.createdAt, now, None)
  }

  function FreshEnvelope(job: Job, now: Instant): EnvelopeRow {
    EnvelopeRow(job.DedupeKey(), job.schemaVersion, Digest(Parsed(job)), Parsed(job), Active, now, now)
  }

  function Reclaimed(row: JobRow, job: Job, now: Instant): JobRow {
    row.(attempts := row.attempts + 1, jobId := job.jobId, status := Processing, updatedAt := now,
         deferredUntil := None, deferredReason := None, errorClass := None, errorMessage := None,
         finishedAt := None)
  }

  function ClaimedJobs(jobs: Jobs, job: Job, now: Instant): Jobs {
    if job.DedupeKey() !in jobs then jobs[job.DedupeKey() := FreshJob(job, now)]
    else if ClaimAnswerFor(jobs, job, now).Claimed? then
      jobs[job.DedupeKey() := Reclaimed(jobs[job.DedupeKey()], job, now)]
    else jobs
  }

  /** Only the first claim of an article files an envelope. */
  function ClaimedEnvelopes(jobs: Jobs, envelopes: Envelopes, job: Job, now: Instant): Envelopes {
    if job.DedupeKey() !in jobs && job.IsArticle() && job.jobId !in envelopes
    then envelopes[job.jobId := FreshEnvelope(job, now)] else envelopes
  }

  function ClaimJob(db: Db, job: Job, now: Instant): Db {
    db.(jobs := ClaimedJobs(db.jobs, job, now), envelopes := ClaimedEnvelopes(db.jobs, db.envelopes, job, now))
  }

  // ----------------------------------------------------------- finish a job

  datatype JobResult =
    | ReportDeferred(retryAt: Instant, reason: string)
    | ReportUncertain(reason: string)
    | ReportDone(summary: Option<SyncRun.Summary>)
    | ReportFailed(errorClass: Option<ErrorClass>, errorMessage: Option<string>, payloadDigest: Option<Digest>)

  datatype FinishAnswer = Ack | Retry(delaySeconds: int) | JobNotFound | DigestRequired

  /** `calculateRetryDelaySeconds`, and the worker's `retryDelaySeconds`: the two are one formula. */
  function RetryDelaySeconds(retryAt: Instant, now: Instant): (d: int)
    ensures 1 <= d <= 300
  {
    Max(1, Min(300, CeilDiv(retryAt - now, 1000)))
  }

  function FailureDelaySeconds(failureAttempts: nat): int {
    Min(300, 30 * Pow2(Max(0, failureAttempts - 1)))
  }

  /** `decideJobTransition` for a failed outcome. */
  function AfterFailure(failureAttempts: nat, errorClass: ErrorClass): JobStatus {
    if errorClass == Permanent || failureAttempts + 1 >= 3 then Dead else Failed
  }

  /** The dead letter's digest is the envelope's when there is one. */
  function LetterDigest(db: Db, j: JobId, payloadDigest: Option<Digest>): Option<Digest> {
    if j in db.envelopes then Some(db.envelopes[j].digest) else payloadDigest
  }

  function FinishAnswerFor(db: Db, j: JobId, input: JobResult, now: Instant): FinishAnswer {
    if !HasJob(db.jobs, j) then JobNotFound
    else
      var row := db.jobs[j.key];
      if Terminal(row.status) then Ack
      else
        match input
        case ReportDeferred(retryAt, _) => Retry(RetryDelaySeconds(retryAt, now))
        case ReportUncertain(_) => Ack
        case ReportDone(_) => Ack
        case ReportFailed(c, _, digest) =>
          if AfterFailure(row.failureAttempts, GetOr(c, Permanent)) == Failed then
            Retry(FailureDelaySeconds(row.failureAttempts + 1))
          else if LetterDigest(db, j, digest).None? then DigestRequired
          else Ack
  }

  function WriteLetter(letters: Letters, id: LetterId, row: LetterRow): Letters {
    if id !in letters then letters[id := row]
    else letters[id := letters[id].(attempts := row.attempts, errorClass := row.errorClass,
                                    errorMessage := row.errorMessage, digest := row.digest,
                                    envelopeJobId := row.envelopeJobId, createdAt := row.createdAt)]
  }

  function SetEnvelopeStatus(envelopes: Envelopes, j: JobId, status: EnvelopeStatus, now: Instant): Envelopes {
    if j in envelopes then envelopes[j := envelopes[j].(status := status, updatedAt := now)] else envelopes
  }

  /** `updateSyncJobCompletion`: only a collection job under a `collect:<source>:<run>` key moves a run. */
  function CompleteRun(runs: map<RunId, SyncRun.RunView>, row: JobRow, key: DedupeKey,
                       outcome: SyncRun.Outcome, now: Instant): map<RunId, SyncRun.RunView>
  {
    if row.kind != CollectSource || !key.CollectKey? || key.run !in runs then runs
    else runs[key.run := SyncRun.AdvanceSyncJob(runs[key.run].stats, SyncRun.Completion(key.source, outcome, now))]
  }

  /** What a report does to a live row. */
  datatype Verdict =
    | Untouched
    | ToDeferred(retryAt: Instant, reason: string)
    | ToUncertain(reason: string)
    | ToDone(summary: Option<SyncRun.Summary>)
    | ToFailed(errorClass: ErrorClass, message: string)
    | ToDead(errorClass: ErrorClass, message: string, digest: Digest)

  function VerdictFor(db: Db, j: JobId, input: JobResult): Verdict {
    if !HasJob(db.jobs, j) || Terminal(db.jobs[j.key].status) then Untouched
    else
      match input
      case ReportDeferred(retryAt, reason) => ToDeferred(retryAt, reason)
      case ReportUncertain(reason) => ToUncertain(Cut(reason))
      case ReportDone(summary) => ToDone(summary)
      case ReportFailed(errorClass, errorMessage, payloadDigest) =>
        var message := Cut(GetOr(errorMessage, "worker job failed"));
        FailureVerdict(db, j, GetOr(errorClass, Permanent), message, payloadDigest)
  }

  function FailureVerdict(db: Db, j: JobId, c: ErrorClass, message: string, payloadDigest: Option<Digest>): Verdict
    requires HasJob(db.jobs, j)
  {
    if AfterFailure(db.jobs[j.key].failureAttempts, c) == Failed then ToFailed(c, message)
    else
      match LetterDigest(db, j, payloadDigest)
      case None => Untouched
      case Some(digest) => ToDead(c, message, digest)
  }

  function NextRow(row: JobRow, verdict: Verdict, now: Instant): JobRow {
    match verdict
    case Untouched => row
    case ToDeferred(retryAt, reason) =>
      row.(status := Deferred, deferralCount := row.deferralCount + 1, deferredUntil := Some(retryAt),
           deferredReason := Some(reason), updatedAt := now, errorClass := None, errorMessage := None)
    case ToUncertain(reason) =>
      row.(status := Uncertain, errorMessage := Some(reason), updatedAt := now, finishedAt := Some(now))
    case ToDone(summary) =>
      row.(status := Done, summary := Some(GetOr(summary, SyncRun.Summary(None, None))), updatedAt := now,
           finishedAt := Some(now), deferredUntil := None, deferredReason := None, errorClass := None,
           errorMessage := None)
    case ToFailed(c, message) =>
      row.(status := Failed, failureAttempts := row.failureAttempts + 1, errorClass := Some(c),
           errorMessage := Some(message), updatedAt := now, deferredUntil := None, deferredReason := None)
    case ToDead(c, message, _) =>
      row.(status := Dead, failureAttempts := row.failureAttempts + 1, errorClass := Some(c),
           errorMessage := Some(message), updatedAt := now, finishedAt := Some(now), deferredUntil := None,
           deferredReason := None)
  }

  function NextEnvelopes(envelopes: Envelopes, j: JobId, verdict: Verdict, now: Instant): Envelopes {
    match verdict
    case ToUncertain(_) => SetEnvelopeStatus(envelopes, j, EnvelopeUncertain, now)
    case ToDone(_) => envelopes - {j}
    case ToDead(_, _, _) => SetEnvelopeStatus(envelopes, j, EnvelopeDead, now)
    case _ => envelopes
  }

  function NextLetters(db: Db, j: JobId, verdict: Verdict, now: Instant): Letters {
    if !verdict.ToDead? || j.key !in db.jobs then db.letters
    else
      var row := db.jobs[j.key];
      WriteLetter(db.letters, ForJob(j),
        LetterRow(Some(j.key), Some(row.kind), row.failureAttempts + 1, verdict.errorClass, verdict.message,
                  verdict.digest, if j in db.envelopes then Some(j) else None, now))
  }

  function NextRuns(db: Db, j: JobId, verdict: Verdict, now: Instant): map<RunId, SyncRun.RunView> {
    if j.key !in db.jobs then db.runs
    else
      match verdict
      case ToDone(summary) => CompleteRun(db.runs, db.jobs[j.key], j.key, SyncRun.Succeeded(summary), now)
      case ToDead(_, message, _) =>
        CompleteRun(db.runs, db.jobs[j.key], j.key,
                    SyncRun.Failed(if message == "" then None else Some(message)), now)
      case _ => db.runs
  }

  function NextJobs(jobs: Jobs, j: JobId, verdict: Verdict, now: Instant): Jobs {
    if j.key in jobs then jobs[j.key := NextRow(jobs[j.key], verdict, now)] else jobs
  }

  function FinishJob(db: Db, j: JobId, input: JobResult, now: Instant): Db {
    var verdict := VerdictFor(db, j, input);
    db.(jobs := NextJobs(db.jobs, j, verdict, now),
        envelopes := NextEnvelopes(db.envelopes, j, verdict, now),
        letters := NextLetters(db, j, verdict, now),
        runs := NextRuns(db, j, verdict, now))
  }

  // ------------------------------------------------------ reject a bad body

  function RejectInvalid(db: Db, message: MessageId, attempts: nat, reason: string, digest: Digest, now: Instant): Db {
    if ForMessage(message) in db.letters then db
    else
      db.(letters := db.letters[ForMessage(message) :=
        LetterRow(None, None, attempts, Permanent, Cut(reason), digest, None, now)])
  }

  // -------------------------------------------------- replay a dead letter

  datatype ReplayStatus = Rejected | Validated | Published

  datatype ReplayReason =
    | DoneTerminal | UncertainTerminal | IdempotencyConflict
    | HistoricalUnrecoverable | EnvelopeUnavailable | EnvelopeInvalid | EnvelopeMismatch
    | Replayable | PublishedReason

  datatype ReplayAnswer = ReplayAnswer(published: bool, replayable: bool, status: ReplayStatus, reason: ReplayReason)

  function RejectedFor(reason: ReplayReason): ReplayAnswer { ReplayAnswer(false, false, Rejected, reason) }

  /** Some effect of the job is done or uncertain. */
  predicate EffectSettled(effects: EffectTable, j: JobId) {
    exists e :: e in effects && effects[e].jobId == j && Frozen(effects[e].status)
  }

  /** What a query for one settled effect of the job may find: the status of any of them. */
  ghost predicate FindsSettled(effects: EffectTable, j: JobId, found: Option<EffectStatus>) {
    if found.None? then !EffectSettled(effects, j)
    else exists e :: e in effects && effects[e].jobId == j && effects[e].status == found.value && Frozen(found.value)
  }

  function LetterEnvelope(letters: Letters, j: JobId): Option<JobId> {
    if ForJob(j) in letters then letters[ForJob(j)].envelopeJobId else None
  }

  /** What is wrong with the sealed copy of the job, if anything. */
  function EnvelopeProblem(envelopes: Envelopes, e: JobId, j: JobId): Option<ReplayReason> {
    if e !in envelopes || envelopes[e].status != EnvelopeDead then Some(EnvelopeUnavailable)
    else if !envelopes[e].sealed.Parsed? then Some(EnvelopeInvalid)
    else
      var job := envelopes[e].sealed.job;
      if job.jobId != j || job.schemaVersion != envelopes[e].schemaVersion
         || Digest(Parsed(job)) != envelopes[e].digest then Some(EnvelopeMismatch)
      else None
  }

  /** `settled` is what the query for a settled effect found. */
  function ReplayAnswerFor(db: Db, j: JobId, key: IdempotencyKey, dryRun: bool, settled: Option<EffectStatus>)
    : ReplayAnswer
  {
    if HasJob(db.jobs, j) && db.jobs[j.key].status == Done then RejectedFor(DoneTerminal)
    else if HasJob(db.jobs, j) && db.jobs[j.key].status == Uncertain then RejectedFor(UncertainTerminal)
    else if settled.Some? then RejectedFor(if settled.value == EffectDone then DoneTerminal else UncertainTerminal)
    else if key in db.operations then
      if db.operations[key].jobId != j then RejectedFor(IdempotencyConflict)
      else
        var published := db.operations[key].published;
        ReplayAnswer(published, published, if published then Published else Rejected, PublishedReason)
    else
      var envelope := LetterEnvelope(db.letters, j);
      if envelope.None? then RejectedFor(HistoricalUnrecoverable)
      else
        var problem := EnvelopeProblem(db.envelopes, envelope.value, j);
        if problem.Some? then RejectedFor(problem.value)
        else if dryRun then ReplayAnswer(false, true, Validated, Replayable)
        else ReplayAnswer(true, true, Published, PublishedReason)
  }

  /** This call publishes, rather than reporting an earlier publication or refusing. */
  predicate Publishes(db: Db, j: JobId, key: IdempotencyKey, dryRun: bool) {
    && !dryRun && key !in db.operations && !EffectSettled(db.effects, j)
    && ReplayAnswerFor(db, j, key, dryRun, None).published
  }

  function ReplayedInboxRow(job: Job, now: Instant): InboxRow {
    InboxRow(Parsed(job), Queued, 0, now, now, now, now)
  }

  function Replay(db: Db, j: JobId, key: IdempotencyKey, dryRun: bool, now: Instant): Db {
    if !Publishes(db, j, key, dryRun) then db
    else
      var e := LetterEnvelope(db.letters, j).value;
      var message := ReplayMessage(j, key);
      db.(operations := db.operations[key := OperationRow(j, message, true, now)],
          inbox := if message in db.inbox then db.inbox
                   else db.inbox[message := ReplayedInboxRow(db.envelopes[e].sealed.job, now)],
          jobs := if HasJob(db.jobs, j) && db.jobs[j.key].status == Dead
                  then db.jobs[j.key := db.jobs[j.key].(status := Failed, failureAttempts := 0, errorClass := None,
                                                        errorMessage := None, finishedAt := None, updatedAt := now)]
                  else db.jobs,
          envelopes := if db.envelopes[e].status == EnvelopeDead
                       then SetEnvelopeStatus(db.envelopes, e, Active, now) else db.envelopes)
  }

  // ------------------------------------------------------- the lease queue

  datatype Incoming = Incoming(id: ExternalId, body: Body, timestampMs: int)

  function StageOne(inbox: Inbox, message: Incoming, now: Instant): Inbox {
    if External(message.id) in inbox then inbox
    else inbox[External(message.id) := InboxRow(message.body, Queued, 0, now, message.timestampMs, now, now)]
  }

  function Stage(inbox: Inbox, messages: seq<Incoming>, now: Instant): Inbox {
    if messages == [] then inbox
    else StageOne(Stage(inbox, messages[..|messages| - 1], now), messages[|messages| - 1], now)
  }

  predicate Expired(row: InboxRow, now: Instant) { row.state.Leased? && row.state.until <= now }

  function Requeue(row: InboxRow, availableAt: Instant, now: Instant): InboxRow {
    row.(state := Queued, availableAt := availableAt, updatedAt := now)
  }

  /** The first statement of `pull`: every lease that has run out goes back to the queue, available at once. */
  function ReclaimExpired(inbox: Inbox, now: Instant): Inbox {
    map m | m in inbox :: if Expired(inbox[m], now) then Requeue(inbox[m], now, now) else inbox[m]
  }

  /** A message and the lease id it is handed out under. */
  datatype HandOut = HandOut(message: MessageId, leaseId: LeaseId)

  function LeaseOne(inbox: Inbox, h: HandOut, until: Instant, now: Instant): Inbox {
    if h.message in inbox && inbox[h.message].state == Queued then
      inbox[h.message := inbox[h.message].(state := Leased(h.leaseId, until),
                                           attempts := inbox[h.message].attempts + 1, updatedAt := now)]
    else inbox
  }

  function LeaseAll(inbox: Inbox, hands: seq<HandOut>, until: Instant, now: Instant): Inbox {
    if hands == [] then inbox
    else LeaseOne(LeaseAll(inbox, hands[..|hands| - 1], until, now), hands[|hands| - 1], until, now)
  }

  function Pull(inbox: Inbox, hands: seq<HandOut>, visibilityMs: int, now: Instant): Inbox {
    LeaseAll(ReclaimExpired(inbox, now), hands, now + visibilityMs, now)
  }

  predicate Eligible(inbox: Inbox, m: MessageId, now: Instant) {
    m in inbox && inbox[m].state == Queued && inbox[m].availableAt <= now
  }

  datatype RetryLine = RetryLine(leaseId: LeaseId, delaySeconds: Option<int>)

  predicate HeldBy(row: InboxRow, lease: LeaseId) { row.state.Leased? && row.state.leaseId == lease }

  /** The delay of the first line that names the lease; a later one finds the lease gone. */
  function RetryDelay(retries: seq<RetryLine>, lease: LeaseId): Option<int> {
    if retries == [] then None
    else if retries[0].leaseId == lease then Some(GetOr(retries[0].delaySeconds, 0))
    else RetryDelay(retries[1..], lease)
  }

  /** `settle`, all at once: what happens to a row depends only on the lease it is held under.
      `lease_until` plays no part. */
  function Settle(inbox: Inbox, acks: seq<LeaseId>, retries: seq<RetryLine>, now: Instant): Inbox {
    map m | m in inbox && !(inbox[m].state.Leased? && inbox[m].state.leaseId in acks) ::
      if inbox[m].state.Leased? && RetryDelay(retries, inbox[m].state.leaseId).Some?
      then Requeue(inbox[m], now + RetryDelay(retries, inbox[m].state.leaseId).value * 1000, now)
      else inbox[m]
  }
}
