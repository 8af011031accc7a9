/** The control plane's commands on the tables, statement by statement. Each method is one
    transaction and is proved to have exactly the effect and the answer `Store` says. */
module Database {
  import opened Basics
  import opened Identifiers
  import opened Effects
  import opened Store
  import opened Ordering
  import SyncRun

  /** One line of a `pull` response. */
  datatype InboxLease = InboxLease(attempts: nat, body: Body, id: MessageId, leaseId: LeaseId, timestampMs: int)

  function HandsOf(messages: seq<InboxLease>): (hands: seq<HandOut>)
    ensures |hands| == |messages|
    ensures forall i :: 0 <= i < |hands| ==> hands[i] == HandOut(messages[i].id, messages[i].leaseId)
  {
    seq(|messages|, i requires 0 <= i < |messages| => HandOut(messages[i].id, messages[i].leaseId))
  }

  function Ids(messages: seq<InboxLease>): (ids: seq<MessageId>)
    ensures |ids| == |messages|
    ensures forall i :: 0 <= i < |ids| ==> ids[i] == messages[i].id
  {
    seq(|messages|, i requires 0 <= i < |messages| => messages[i].id)
  }

  /** The rows `pull` may hand out: due once expired leases are back, and not locked by another transaction. */
  function Candidates(inbox: Inbox, locked: set<MessageId>, now: Instant): set<MessageId> {
    set m | m in inbox && Eligible(inbox, m, now) && m !in locked
  }

  /** The response line repeats the row as it now is: leased, one more attempt, same body. */
  predicate LeasedAs(m: InboxLease, before: Inbox, after: Inbox, lease: LeaseId, until: Instant) {
    && m.leaseId == lease && m.id in before && m.id in after
    && after[m.id].state == Leased(lease, until)
    && m.body == before[m.id].body == after[m.id].body
    && m.attempts == before[m.id].attempts + 1 == after[m.id].attempts
    && m.timestampMs == before[m.id].timestampMs
  }

  /** The text order of message ids belongs to the database's collation, so it is a parameter. */
  type Collation = (MessageId, MessageId) -> bool

  /** `ORDER BY created_at, message_id`. */
  function QueueOrder(inbox: Inbox, collate: Collation): (MessageId, MessageId) -> bool {
    (a: MessageId, b: MessageId) =>
      a in inbox && b in inbox &&
      (inbox[a].createdAt < inbox[b].createdAt || (inbox[a].createdAt == inbox[b].createdAt && collate(a, b)))
  }

  lemma QueueOrderTotal(inbox: Inbox, collate: Collation, rows: set<MessageId>)
    requires StrictTotal(collate) && rows <= inbox.Keys
    ensures TotalOn(QueueOrder(inbox, collate), rows)
  {
  }

  predicate Takeable(inbox: Inbox, locked: set<MessageId>, now: Instant, m: MessageId) {
    m in inbox && inbox[m].state == Queued && inbox[m].availableAt <= now && m !in locked
  }

  /** `a` entered the queue first, or at the same instant and has the smaller id. */
  predicate Before(inbox: Inbox, collate: Collation, a: MessageId, b: MessageId) {
    a in inbox && b in inbox &&
    (inbox[a].createdAt < inbox[b].createdAt || (inbox[a].createdAt == inbox[b].createdAt && collate(a, b)))
  }

  /** The first in order, in plain words: due and unlocked, oldest first and equally old ones by message id; and nothing
      older, or of the same age and before it, is left behind. */
  lemma OldestFirst(inbox: Inbox, collate: Collation, locked: set<MessageId>, now: Instant, limit: nat,
                    chosen: seq<MessageId>)
    requires StrictTotal(collate)
    requires FirstInOrder(QueueOrder(inbox, collate), Candidates(inbox, locked, now), limit, chosen)
    ensures |chosen| <= limit
    ensures forall i :: 0 <= i < |chosen| ==> Takeable(inbox, locked, now, chosen[i])
    ensures forall i, j :: 0 <= i < j < |chosen| ==> Before(inbox, collate, chosen[i], chosen[j])
    ensures forall m, i :: Takeable(inbox, locked, now, m) && m !in chosen && 0 <= i < |chosen| ==>
      Before(inbox, collate, chosen[i], m)
    ensures |chosen| < limit ==> forall m :: Takeable(inbox, locked, now, m) ==> m in chosen
  {
    var all := Candidates(inbox, locked, now);
    forall m | Takeable(inbox, locked, now, m) ensures m in all {}
    if |chosen| < limit { AllChosen(QueueOrder(inbox, collate), all, limit, chosen, collate, inbox); }
  }

  lemma AllChosen(less: (MessageId, MessageId) -> bool, all: set<MessageId>, limit: nat, chosen: seq<MessageId>,
                  collate: Collation, inbox: Inbox)
    requires StrictTotal(collate) && less == QueueOrder(inbox, collate) && all <= inbox.Keys
    requires FirstInOrder(less, all, limit, chosen) && |chosen| < limit
    ensures forall m :: m in all ==> m in chosen
  {
    QueueOrderTotal(inbox, collate, all);
    NoRepeats(less, all, chosen);
    DistinctFill(all, chosen);
  }

  /** As many different elements of a set as it has are all of them. */
  lemma {:induction false} DistinctFill(all: set<MessageId>, chosen: seq<MessageId>)
    requires Distinct(chosen) && |chosen| == |all| && forall i :: 0 <= i < |chosen| ==> chosen[i] in all
    ensures forall m :: m in all ==> m in chosen
  {
    if chosen != [] {
      var n := |chosen| - 1;
      DistinctFill(all - {chosen[n]}, chosen[..n]);
      assert chosen == chosen[..n] + [chosen[n]];
    } else {
      assert all == {};
    }
  }

  class Database {
    var inbox: Inbox
    var jobs: Jobs
    var envelopes: Envelopes
    var letters: Letters
    var operations: map<IdempotencyKey, OperationRow>
    var effects: EffectTable
    var runs: map<RunId, SyncRun.RunView>

    function Snapshot(): Db
      reads this
    {
      Db(inbox, jobs, envelopes, letters, operations, effects, runs)
    }

    constructor ()
      ensures Snapshot() == EMPTY
    {
      inbox, jobs, envelopes, letters, operations, effects, runs := map[], map[], map[], map[], map[], map[], map[];
    }

    /** Take over the tables as other clients left them. */
    method Refresh(db: Db)
      modifies this
      ensures Snapshot() == db
    {
      inbox, jobs, envelopes, letters := db.inbox, db.jobs, db.envelopes, db.letters;
      operations, effects, runs := db.operations, db.effects, db.runs;
    }

    method ClaimJob(job: Job, now: Instant) returns (answer: ClaimAnswer)
      modifies this`jobs, this`envelopes
      ensures Snapshot() == Store.ClaimJob(old(Snapshot()), job, now)
      ensures answer == ClaimAnswerFor(old(jobs), job, now)
    {
      var key := job.DedupeKey();
      if key !in jobs {
        jobs := jobs[key := JobRow(job.jobId, job.kind, Processing, 1, 0, 0, None, None, None, None, None,
                                   job.createdAt, now, None)];
        if job.kind == DispatchItem(Article) {
          if job.jobId !in envelopes {
            envelopes := envelopes[job.jobId :=
              EnvelopeRow(key, job.schemaVersion, Digest(Parsed(job)), Parsed(job), Active, now, now)];
          }
        }
        return Claimed(1);
      }
      var existing := jobs[key];
      if existing.status == Done || existing.status == Dead || existing.status == Uncertain {
        return Duplicate;
      }
      if existing.status == Deferred {
        match existing.deferredUntil {
          case Some(until) =>
            if until > now {
              return Waiting(GetOr(existing.deferredReason, "deferred"), until);
            }
          case None =>
        }
      }
      if existing.status == Processing && !IsStale(existing.updatedAt, now) {
        return Busy;
      }
      var row := existing;
      row := row.(attempts := row.attempts + 1, jobId := job.jobId, status := Processing, updatedAt := now);
      row := row.(deferredUntil := None, deferredReason := None, errorClass := None);
      row := row.(errorMessage := None, finishedAt := None);
      jobs := jobs[key := row];
      return Claimed(row.attempts);
    }

    method FinishJob(jobId: JobId, input: JobResult, now: Instant) returns (answer: FinishAnswer)
      modifies this`jobs, this`envelopes, this`letters, this`runs
      ensures Snapshot() == Store.FinishJob(old(Snapshot()), jobId, input, now)
      ensures answer == FinishAnswerFor(old(Snapshot()), jobId, input, now)
    {
      if !HasJob(jobs, jobId) {
        return JobNotFound;
      }
      var row := jobs[jobId.key];
      if row.status == Done || row.status == Dead || row.status == Uncertain {
        assert jobs == NextJobs(jobs, jobId, Untouched, now);
        return Ack;
      }
      match input {
        case ReportDeferred(retryAt, reason) =>
          jobs := jobs[jobId.key := row.(status := Deferred, deferralCount := row.deferralCount + 1,
                                         deferredUntil := Some(retryAt), deferredReason := Some(reason),
                                         updatedAt := now, errorClass := None, errorMessage := None)];
          return Retry(RetryDelaySeconds(retryAt, now));
        case ReportUncertain(reason) =>
          jobs := jobs[jobId.key := row.(status := Uncertain, errorMessage := Some(Cut(reason)),
                                         updatedAt := now, finishedAt := Some(now))];
          MarkEnvelope(jobId, EnvelopeUncertain, now);
          return Ack;
        case ReportDone(summary) =>
          jobs := jobs[jobId.key := row.(status := Done,
                                         summary := Some(GetOr(summary, SyncRun.Summary(None, None))),
                                         updatedAt := now, finishedAt := Some(now), deferredUntil := None,
                                         deferredReason := None, errorClass := None, errorMessage := None)];
          envelopes := envelopes - {jobId};
          UpdateSyncJobCompletion(row, jobId.key, SyncRun.Succeeded(summary), now);
          return Ack;
        case ReportFailed(maybeClass, maybeMessage, payloadDigest) =>
          answer := RecordFailure(jobId, row, GetOr(maybeClass, Permanent),
                                  Cut(GetOr(maybeMessage, "worker job failed")), payloadDigest, now);
      }
    }

    /** The failed branch of `finishJob`: one more try, or a dead letter. */
    method RecordFailure(jobId: JobId, row: JobRow, errorClass: ErrorClass, errorMessage: string,
                         payloadDigest: Option<Digest>, now: Instant)
      returns (answer: FinishAnswer)
      requires HasJob(jobs, jobId) && jobs[jobId.key] == row
      modifies this`jobs, this`envelopes, this`letters, this`runs
      ensures var verdict := FailureVerdict(old(Snapshot()), jobId, errorClass, errorMessage, payloadDigest);
        && jobs == NextJobs(old(jobs), jobId, verdict, now)
        && envelopes == NextEnvelopes(old(envelopes), jobId, verdict, now)
        && letters == NextLetters(old(Snapshot()), jobId, verdict, now)
        && runs == NextRuns(old(Snapshot()), jobId, verdict, now)
        && answer == if verdict.ToFailed? then Retry(FailureDelaySeconds(row.failureAttempts + 1))
                     else if verdict.ToDead? then Ack else DigestRequired
    {
      var failureAttempts := row.failureAttempts + 1;
      if errorClass != Permanent && failureAttempts < 3 {
        jobs := jobs[jobId.key := row.(status := Failed, failureAttempts := failureAttempts,
                                       errorClass := Some(errorClass), errorMessage := Some(errorMessage),
                                       updatedAt := now, deferredUntil := None, deferredReason := None)];
        return Retry(Min(300, 30 * Pow2(Max(0, failureAttempts - 1))));
      }
      var digest := if jobId in envelopes then Some(envelopes[jobId].digest) else payloadDigest;
      if digest.None? {
        return DigestRequired;
      }
      var envelopeJobId := if jobId in envelopes then Some(jobId) else None;
      jobs := jobs[jobId.key := row.(status := Dead, failureAttempts := failureAttempts,
                                     errorClass := Some(errorClass), errorMessage := Some(errorMessage),
                                     updatedAt := now, finishedAt := Some(now),
                                     deferredUntil := None, deferredReason := None)];
      FileLetter(jobId, row, failureAttempts, errorClass, errorMessage, digest.value, envelopeJobId, now);
      MarkEnvelope(jobId, EnvelopeDead, now);
      UpdateSyncJobCompletion(row, jobId.key,
                              SyncRun.Failed(if |errorMessage| == 0 then None else Some(errorMessage)), now);
      return Ack;
    }

    /** `INSERT … ON CONFLICT (job_id) DO UPDATE`: the key and kind columns of an existing letter stay. */
    method FileLetter(jobId: JobId, row: JobRow, attempts: nat, errorClass: ErrorClass, errorMessage: string,
                      digest: Digest, envelopeJobId: Option<JobId>, now: Instant)
      modifies this`letters
      ensures letters == old(letters)[ForJob(jobId) :=
        if ForJob(jobId) in old(letters) then
          old(letters)[ForJob(jobId)].(attempts := attempts, errorClass := errorClass, errorMessage := errorMessage,
                                       digest := digest, envelopeJobId := envelopeJobId, createdAt := now)
        else LetterRow(Some(jobId.key), Some(row.kind), attempts, errorClass, errorMessage, digest, envelopeJobId, now)]
    {
      if ForJob(jobId) !in letters {
        letters := letters[ForJob(jobId) :=
          LetterRow(Some(jobId.key), Some(row.kind), attempts, errorClass, errorMessage, digest, envelopeJobId, now)];
      } else {
        var letter := letters[ForJob(jobId)];
        letter := letter.(attempts := attempts, errorClass := errorClass, errorMessage := errorMessage);
        letter := letter.(digest := digest, envelopeJobId := envelopeJobId, createdAt := now);
        letters := letters[ForJob(jobId) := letter];
      }
    }

    method MarkEnvelope(jobId: JobId, status: EnvelopeStatus, now: Instant)
      modifies this`envelopes
      ensures envelopes == SetEnvelopeStatus(old(envelopes), jobId, status, now)
    {
      if jobId in envelopes {
        envelopes := envelopes[jobId := envelopes[jobId].(status := status, updatedAt := now)];
      }
    }

    method UpdateSyncJobCompletion(row: JobRow, key: DedupeKey, outcome: SyncRun.Outcome, now: Instant)
      modifies this`runs
      ensures runs == CompleteRun(old(runs), row, key, outcome, now)
    {
      if row.kind != CollectSource {
        return;
      }
      match key {
        case ItemKey(_) => return;
        case CollectKey(source, run) =>
          if run !in runs {
            return;
          }
          var next := SyncRun.AdvanceSyncJob(runs[run].stats, SyncRun.Completion(source, outcome, now));
          runs := runs[run := next];
      }
    }

    method RejectInvalidJob(message: MessageId, attempts: nat, reason: string, digest: Digest, now: Instant)
      modifies this`letters
      ensures Snapshot() == RejectInvalid(old(Snapshot()), message, attempts, reason, digest, now)
    {
      if ForMessage(message) !in letters {
        letters := letters[ForMessage(message) :=
          LetterRow(None, None, attempts, Permanent, Cut(reason), digest, None, now)];
      }
    }

    method ReplayDeadLetter(jobId: JobId, key: IdempotencyKey, dryRun: bool, now: Instant)
      returns (answer: ReplayAnswer)
      modifies this`operations, this`inbox, this`jobs, this`envelopes
      ensures Snapshot() == Store.Replay(old(Snapshot()), jobId, key, dryRun, now)
      ensures exists settled ::
        FindsSettled(effects, jobId, settled) && answer == ReplayAnswerFor(old(Snapshot()), jobId, key, dryRun, settled)
    {
      var settled := FindSettled(jobId);
      answer := Answer(jobId, key, dryRun, settled);
      if answer.published && key !in operations {
        var envelopeJobId := letters[ForJob(jobId)].envelopeJobId.value;
        PublishReplay(jobId, key, envelopeJobId, envelopes[envelopeJobId].sealed.job, now);
      }
    }

    /** `SELECT status … LIMIT 1`. */
    method FindSettled(jobId: JobId) returns (found: Option<EffectStatus>)
      ensures FindsSettled(effects, jobId, found)
    {
      if e :| e in effects && effects[e].jobId == jobId && Frozen(effects[e].status) {
        return Some(effects[e].status);
      }
      return None;
    }

    /** The checks of a replay, in their order. */
    method Answer(jobId: JobId, key: IdempotencyKey, dryRun: bool, settled: Option<EffectStatus>)
      returns (answer: ReplayAnswer)
      ensures answer == ReplayAnswerFor(Snapshot(), jobId, key, dryRun, settled)
    {
      if HasJob(jobs, jobId) {
        if jobs[jobId.key].status == Done { return RejectedFor(DoneTerminal); }
        if jobs[jobId.key].status == Uncertain { return RejectedFor(UncertainTerminal); }
      }
      if settled == Some(EffectDone) { return RejectedFor(DoneTerminal); }
      if settled.Some? { return RejectedFor(UncertainTerminal); }
      if key in operations {
        var existing := operations[key];
        if existing.jobId != jobId { return RejectedFor(IdempotencyConflict); }
        return ReplayAnswer(existing.published, existing.published,
                            if existing.published then Published else Rejected, PublishedReason);
      }
      if ForJob(jobId) !in letters || letters[ForJob(jobId)].envelopeJobId.None? {
        return RejectedFor(HistoricalUnrecoverable);
      }
      var envelopeJobId := letters[ForJob(jobId)].envelopeJobId.value;
      if envelopeJobId !in envelopes || envelopes[envelopeJobId].status != EnvelopeDead {
        return RejectedFor(EnvelopeUnavailable);
      }
      var envelope := envelopes[envelopeJobId];
      if envelope.sealed.Malformed? { return RejectedFor(EnvelopeInvalid); }
      var job := envelope.sealed.job;
      if job.jobId != jobId || job.schemaVersion != envelope.schemaVersion
         || Digest(Parsed(job)) != envelope.digest {
        return RejectedFor(EnvelopeMismatch);
      }
      if dryRun { return ReplayAnswer(false, true, Validated, Replayable); }
      return ReplayAnswer(true, true, Published, PublishedReason);
    }

    /** The writes of a publication. */
    method PublishReplay(jobId: JobId, key: IdempotencyKey, envelopeJobId: JobId, job: Job, now: Instant)
      requires Publishes(Snapshot(), jobId, key, false) && LetterEnvelope(letters, jobId) == Some(envelopeJobId)
      requires envelopeJobId in envelopes && envelopes[envelopeJobId].status == EnvelopeDead
      requires envelopes[envelopeJobId].sealed == Parsed(job)
      modifies this`operations, this`inbox, this`jobs, this`envelopes
      ensures Snapshot() == Store.Replay(old(Snapshot()), jobId, key, false, now)
    {
      var messageId := ReplayMessage(jobId, key);
      operations := operations[key := OperationRow(jobId, messageId, true, now)];
      if messageId !in inbox {
        inbox := inbox[messageId := InboxRow(Parsed(job), Queued, 0, now, now, now, now)];
      }
      if HasJob(jobs, jobId) && jobs[jobId.key].status == Dead {
        var row := jobs[jobId.key].(status := Failed, failureAttempts := 0, errorClass := None);
        row := row.(errorMessage := None, finishedAt := None, updatedAt := now);
        jobs := jobs[jobId.key := row];
      }
      MarkEnvelope(envelopeJobId, Active, now);
    }

    method ClaimEffect(key: EffectKey, jobId: JobId, now: Instant) returns (answer: EffectAnswer)
      modifies this`effects
      ensures Snapshot() == old(Snapshot()).(effects := Effects.ClaimEffect(old(effects), key, jobId, now))
      ensures answer == ClaimEffectAnswer(old(effects), key, now)
    {
      if key !in effects {
        effects := effects[key := EffectRow(jobId, EffectProcessing, 1, None, None, now, None)];
        return EffectClaimed(1);
      }
      var existing := effects[key];
      if existing.status == EffectDone { return AlreadyDone; }
      if existing.status == EffectUncertain { return AlreadyUncertain; }
      if existing.status == EffectProcessing && !IsStale(existing.updatedAt, now) {
        return EffectBusy(existing.updatedAt + 10 * 60_000);
      }
      var row := existing.(attempts := existing.attempts + 1, status := EffectProcessing, errorClass := None);
      row := row.(errorMessage := None, updatedAt := now, finishedAt := None);
      effects := effects[key := row];
      return EffectClaimed(row.attempts);
    }

    method FinishEffect(key: EffectKey, result: EffectResult, now: Instant)
      modifies this`effects
      ensures Snapshot() == old(Snapshot()).(effects := Effects.FinishEffect(old(effects), key, result, now))
    {
      if key !in effects { return; }
      var row := effects[key].(updatedAt := now);
      match result {
        case RecordDone =>
          row := row.(status := EffectDone, errorClass := None, errorMessage := None, finishedAt := Some(now));
        case RecordFailed(c, m) =>
          row := row.(status := EffectFailed, errorClass := Some(c), errorMessage := Some(Cut(m)), finishedAt := None);
        case RecordUncertain(m) =>
          row := row.(status := EffectUncertain, errorClass := Some(Permanent), errorMessage := Some(Cut(m)),
                      finishedAt := Some(now));
      }
      effects := effects[key := row];
    }

    // ----------------------------------------------------- the lease queue

    method StageMessages(messages: seq<Incoming>, now: Instant)
      modifies this`inbox
      ensures Snapshot() == old(Snapshot()).(inbox := Store.Stage(old(inbox), messages, now))
    {
      var i := 0;
      while i < |messages|
        invariant 0 <= i <= |messages|
        invariant inbox == Store.Stage(old(inbox), messages[..i], now)
      {
        var id := External(messages[i].id);
        if id !in inbox {
          inbox := inbox[id := InboxRow(messages[i].body, Queued, 0, now, messages[i].timestampMs, now, now)];
        }
        assert messages[..i + 1][..i] == messages[..i];
        i := i + 1;
      }
      assert messages[..|messages|] == messages;
    }

    /** `SELECT … ORDER BY created_at, message_id LIMIT n FOR UPDATE SKIP LOCKED`. */
    method SelectCandidates(collate: Collation, limit: nat, locked: set<MessageId>, now: Instant)
      returns (chosen: seq<MessageId>)
      requires StrictTotal(collate)
      ensures FirstInOrder(QueueOrder(inbox, collate), Candidates(inbox, locked, now), limit, chosen)
      ensures Distinct(chosen)
    {
      QueueOrderTotal(inbox, collate, Candidates(inbox, locked, now));
      chosen := TakeFirst(QueueOrder(inbox, collate), Candidates(inbox, locked, now), limit);
      NoRepeats(QueueOrder(inbox, collate), Candidates(inbox, locked, now), chosen);
    }

    method Pull(batchSize: nat, visibilityMs: int, collate: Collation, locked: set<MessageId>,
                uuid: nat -> LeaseId, now: Instant)
      returns (messages: seq<InboxLease>, backlog: nat)
      requires StrictTotal(collate)
      modifies this`inbox
      ensures Snapshot() == old(Snapshot()).(inbox := Store.Pull(old(inbox), HandsOf(messages), visibilityMs, now))
      ensures FirstInOrder(QueueOrder(ReclaimExpired(old(inbox), now), collate),
                           Candidates(ReclaimExpired(old(inbox), now), locked, now), batchSize, Ids(messages))
      ensures forall i :: 0 <= i < |messages| ==>
        LeasedAs(messages[i], old(inbox), inbox, uuid(i), now + visibilityMs)
      ensures backlog == |inbox|
    {
      inbox := map m | m in inbox ::
        if inbox[m].state.Leased? && inbox[m].state.until <= now
        then inbox[m].(state := Queued, availableAt := now, updatedAt := now) else inbox[m];
      assert inbox == ReclaimExpired(old(inbox), now);
      var chosen := SelectCandidates(collate, batchSize, locked, now);
      messages := LeaseRows(chosen, now + visibilityMs, uuid, now);
      backlog := |inbox|;
    }

    method LeaseRows(chosen: seq<MessageId>, leaseUntil: Instant, uuid: nat -> LeaseId, now: Instant)
      returns (messages: seq<InboxLease>)
      requires forall i :: 0 <= i < |chosen| ==> Eligible(inbox, chosen[i], now)
      requires forall i, j :: 0 <= i < j < |chosen| ==> chosen[i] != chosen[j]
      modifies this`inbox
      ensures inbox == LeaseAll(old(inbox), HandsOf(messages), leaseUntil, now) && inbox.Keys == old(inbox).Keys
      ensures Ids(messages) == chosen
      ensures forall i :: 0 <= i < |messages| ==> LeasedAs(messages[i], old(inbox), inbox, uuid(i), leaseUntil)
    {
      messages := [];
      for i := 0 to |chosen|
        invariant |messages| == i && Ids(messages) == chosen[..i]
        invariant inbox == LeaseAll(old(inbox), HandsOf(messages), leaseUntil, now) && inbox.Keys == old(inbox).Keys
        invariant forall k :: i <= k < |chosen| ==> inbox[chosen[k]] == old(inbox)[chosen[k]]
        invariant forall k :: 0 <= k < i ==> messages[k].id == chosen[k]
        invariant forall k :: 0 <= k < i ==> LeasedAs(messages[k], old(inbox), inbox, uuid(k), leaseUntil)
      {
        var id, leaseId := chosen[i], uuid(i);
        if inbox[id].state == Queued {
          var row := inbox[id].(state := Leased(leaseId, leaseUntil), attempts := inbox[id].attempts + 1,
                                updatedAt := now);
          inbox := inbox[id := row];
          ghost var before := messages;
          messages := messages + [InboxLease(row.attempts, row.body, id, leaseId, row.timestampMs)];
          assert HandsOf(messages)[..i] == HandsOf(before);
        }
      }
    }

    /** `settled` is false when `assertDistinctLeases` throws. */
    method Settle(acks: seq<LeaseId>, retries: seq<RetryLine>, now: Instant) returns (settled: bool)
      modifies this`inbox
      ensures settled <==> forall r :: r in retries ==> r.leaseId !in acks
      ensures Snapshot() == old(Snapshot()).(inbox :=
        if settled then Store.Settle(old(inbox), acks, retries, now) else old(inbox))
    {
      if exists r :: r in retries && r.leaseId in acks { return false; }
      var i := 0;
      while i < |acks|
        invariant 0 <= i <= |acks|
        invariant inbox == Store.Settle(old(inbox), acks[..i], [], now)
      {
        var lease := acks[i];
        inbox := map m | m in inbox && !(inbox[m].state.Leased? && inbox[m].state.leaseId == lease) :: inbox[m];
        assert acks[..i + 1] == acks[..i] + [lease];
        i := i + 1;
      }
      assert acks[..i] == acks;
      i := 0;
      while i < |retries|
        invariant 0 <= i <= |retries|
        invariant inbox == Store.Settle(old(inbox), acks, retries[..i], now)
      {
        var retry := retries[i];
        var availableAt := now + GetOr(retry.delaySeconds, 0) * 1000;
        inbox := map m | m in inbox ::
          if inbox[m].state.Leased? && inbox[m].state.leaseId == retry.leaseId
          then inbox[m].(state := Queued, availableAt := availableAt, updatedAt := now) else inbox[m];
        RetryLineAppended(old(inbox), acks, retries[..i], retry, now);
        assert retries[..i + 1] == retries[..i] + [retry];
        i := i + 1;
      }
      assert retries[..i] == retries;
      return true;
    }
  }

  lemma {:induction false} RetryDelayAppended(lines: seq<RetryLine>, line: RetryLine, lease: LeaseId)
    ensures RetryDelay(lines + [line], lease) ==
      if RetryDelay(lines, lease).Some? then RetryDelay(lines, lease)
      else if line.leaseId == lease then Some(GetOr(line.delaySeconds, 0)) else None
  {
    if lines == [] {
      assert [] + [line] == [line];
    } else {
      RetryDelayAppended(lines[1..], line, lease);
      assert (lines + [line])[1..] == lines[1..] + [line];
    }
  }

  /** One more UPDATE statement is one more line of the batch. */
  lemma RetryLineAppended(inbox: Inbox, acks: seq<LeaseId>, lines: seq<RetryLine>, line: RetryLine, now: Instant)
    ensures Store.Settle(inbox, acks, lines + [line], now) ==
      (var mid := Store.Settle(inbox, acks, lines, now);
       map m | m in mid ::
         if HeldBy(mid[m], line.leaseId)
         then Requeue(mid[m], now + GetOr(line.delaySeconds, 0) * 1000, now) else mid[m])
  {
    var mid := Store.Settle(inbox, acks, lines, now);
    forall m | m in mid && inbox[m].state.Leased?
      ensures RetryDelay(lines + [line], inbox[m].state.leaseId) ==
        if RetryDelay(lines, inbox[m].state.leaseId).Some? then RetryDelay(lines, inbox[m].state.leaseId)
        else if line.leaseId == inbox[m].state.leaseId then Some(GetOr(line.delaySeconds, 0)) else None
    {
      RetryDelayAppended(lines, line, inbox[m].state.leaseId);
    }
  }
}
