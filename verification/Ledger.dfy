/** What the job rows, envelopes, dead letters and replay operations say about each other in every
    reachable state, and what follows for replay, for terminal states and for the failure budget. */
module Ledger {
  import opened Basics
  import opened Identifiers
  import opened Store
  import opened Protocol
  import SyncRun

  predicate IsDead(jobs: Jobs, j: JobId) { HasJob(jobs, j) && jobs[j.key].status == Dead }

  /** Some replay of the job was published. */
  predicate WasReplayed(operations: map<IdempotencyKey, OperationRow>, j: JobId) {
    exists key :: key in operations && operations[key].jobId == j && operations[key].published
  }

  /** An envelope seals the job it is filed under, and it is marked dead exactly while the row
      with its job id is dead. */
  predicate EnvelopeSound(jobs: Jobs, e: JobId, row: EnvelopeRow) {
    && e.key in jobs && jobs[e.key].kind == DispatchItem(Article) && row.dedupeKey == e.key
    && row.sealed.Parsed? && row.sealed.job.jobId == e && row.sealed.job.IsArticle()
    && row.digest == Digest(row.sealed) && row.schemaVersion == row.sealed.job.schemaVersion
    && (row.status == EnvelopeDead <==> IsDead(jobs, e))
  }

  ghost predicate EnvelopesSound(db: Db) {
    forall e :: e in db.envelopes ==> EnvelopeSound(db.jobs, e, db.envelopes[e])
  }

  /** The UNIQUE constraint on the envelopes' dedupe key is never put to the test. */
  ghost predicate OneEnvelopePerKey(envelopes: Envelopes) {
    forall a, b :: a in envelopes && b in envelopes && a.key == b.key ==> a == b
  }

  /** A job's letter points at its own envelope or at none, carries the envelope's digest, and until
      the job is replayed the job stays dead. */
  predicate LetterSound(db: Db, j: JobId, letter: LetterRow) {
    && j.key in db.jobs
    && (letter.envelopeJobId == None || letter.envelopeJobId == Some(j))
    && (letter.envelopeJobId == Some(j) && j in db.envelopes ==> letter.digest == db.envelopes[j].digest)
    && (WasReplayed(db.operations, j) || IsDead(db.jobs, j))
  }

  ghost predicate LettersSound(db: Db) {
    forall j :: ForJob(j) in db.letters ==> LetterSound(db, j, db.letters[ForJob(j)])
  }

  /** A dead row has its letter, and the letter points at the envelope exactly when there is one. */
  predicate RowSound(db: Db, k: DedupeKey, row: JobRow) {
    && row.jobId.key == k
    && row.failureAttempts <= 3
    && (!Terminal(row.status) ==> row.failureAttempts <= 2)
    && (row.status == Dead ==>
          ForJob(row.jobId) in db.letters &&
          (db.letters[ForJob(row.jobId)].envelopeJobId.Some? <==> row.jobId in db.envelopes))
  }

  ghost predicate RowsSound(db: Db) {
    forall k :: k in db.jobs ==> RowSound(db, k, db.jobs[k])
  }

  ghost predicate OperationsSound(db: Db) {
    forall key :: key in db.operations ==>
      db.operations[key].published && db.operations[key].messageId == ReplayMessage(db.operations[key].jobId, key)
  }

  ghost predicate LedgerInv(db: Db) {
    EnvelopesSound(db) && OneEnvelopePerKey(db.envelopes) && LettersSound(db) && RowsSound(db) && OperationsSound(db)
  }

  /** A claim never touches a terminal row, so it neither makes nor unmakes a dead job. */
  lemma ClaimKeepsDead(jobs: Jobs, job: Job, now: Instant, j: JobId)
    ensures IsDead(ClaimedJobs(jobs, job, now), j) == IsDead(jobs, j)
    ensures j.key in jobs ==> j.key in ClaimedJobs(jobs, job, now)
  {
  }

  lemma ClaimKeepsEnvelope(db: Db, job: Job, now: Instant, e: JobId)
    requires EnvelopesSound(db) && e in ClaimedEnvelopes(db.jobs, db.envelopes, job, now)
    ensures EnvelopeSound(ClaimedJobs(db.jobs, job, now), e, ClaimedEnvelopes(db.jobs, db.envelopes, job, now)[e])
  {
    ClaimKeepsDead(db.jobs, job, now, e);
    if e in db.envelopes { assert EnvelopeSound(db.jobs, e, db.envelopes[e]); }
  }

  /** A new envelope comes with a new row, so its key had no envelope before. */
  lemma ClaimKeepsOneEnvelope(db: Db, job: Job, now: Instant)
    requires EnvelopesSound(db) && OneEnvelopePerKey(db.envelopes)
    ensures OneEnvelopePerKey(ClaimJob(db, job, now).envelopes)
  {
    forall e | e in db.envelopes ensures e.key in db.jobs { assert EnvelopeSound(db.jobs, e, db.envelopes[e]); }
  }

  lemma ClaimKeepsRow(db: Db, job: Job, now: Instant, k: DedupeKey)
    requires RowsSound(db) && k in ClaimedJobs(db.jobs, job, now)
    requires forall e :: e in db.envelopes ==> e.key in db.jobs
    ensures RowSound(ClaimJob(db, job, now), k, ClaimedJobs(db.jobs, job, now)[k])
  {
    if k in db.jobs {
      assert RowSound(db, k, db.jobs[k]);
    }
  }

  /** A claim may move a live row to another job id; no letter can be waiting on a live row. */
  lemma ClaimKeepsLetter(db: Db, job: Job, now: Instant, j: JobId)
    requires LettersSound(db) && ForJob(j) in db.letters
    ensures LetterSound(ClaimJob(db, job, now), j, db.letters[ForJob(j)])
  {
    assert LetterSound(db, j, db.letters[ForJob(j)]);
    ClaimKeepsDead(db.jobs, job, now, j);
  }

  lemma ClaimKeepsLedger(db: Db, job: Job, now: Instant)
    requires LedgerInv(db)
    ensures LedgerInv(ClaimJob(db, job, now))
  {
    var after := ClaimJob(db, job, now);
    ClaimKeepsOneEnvelope(db, job, now);
    assert EnvelopesSound(after) by {
      forall e | e in after.envelopes { ClaimKeepsEnvelope(db, job, now, e); }
    }
    assert RowsSound(after) by {
      forall e | e in db.envelopes ensures e.key in db.jobs { assert EnvelopeSound(db.jobs, e, db.envelopes[e]); }
      forall k | k in after.jobs { ClaimKeepsRow(db, job, now, k); }
    }
    assert after.operations == db.operations && after.letters == db.letters;
    forall j | ForJob(j) in db.letters { ClaimKeepsLetter(db, job, now, j); }
  }

  lemma FinishKeepsLedger(db: Db, j: JobId, input: JobResult, now: Instant)
    requires LedgerInv(db)
    ensures LedgerInv(FinishJob(db, j, input, now))
  {
    var verdict := VerdictFor(db, j, input);
    if verdict.Untouched? {
      assert NextJobs(db.jobs, j, verdict, now) == db.jobs;
      assert FinishJob(db, j, input, now) == db;
    } else {
      VerdictKeepsEnvelopes(db, j, verdict, now);
      var after := FinishJob(db, j, input, now);
      assert RowSound(db, j.key, db.jobs[j.key]);
      VerdictKeepsLetters(db, j, verdict, now, after);
      VerdictKeepsRows(db, j, verdict, now, after);
    }
  }

  lemma VerdictKeepsEnvelopes(db: Db, j: JobId, verdict: Verdict, now: Instant)
    requires EnvelopesSound(db) && OneEnvelopePerKey(db.envelopes)
    requires HasJob(db.jobs, j) && !Terminal(db.jobs[j.key].status)
    ensures OneEnvelopePerKey(NextEnvelopes(db.envelopes, j, verdict, now))
    ensures forall e :: e in NextEnvelopes(db.envelopes, j, verdict, now) ==>
      EnvelopeSound(NextJobs(db.jobs, j, verdict, now), e, NextEnvelopes(db.envelopes, j, verdict, now)[e])
  {
    var envelopes, jobs := NextEnvelopes(db.envelopes, j, verdict, now), NextJobs(db.jobs, j, verdict, now);
    forall e | e in envelopes ensures EnvelopeSound(jobs, e, envelopes[e]) {
      assert EnvelopeSound(db.jobs, e, db.envelopes[e]);
    }
  }

  /** A live job has no unreplayed letter, so ending one leaves every other letter as it was. */
  lemma VerdictKeepsLetters(db: Db, j: JobId, verdict: Verdict, now: Instant, after: Db)
    requires LettersSound(db)
    requires HasJob(db.jobs, j) && !Terminal(db.jobs[j.key].status) && !verdict.Untouched?
    requires verdict.ToDead? && j in db.envelopes ==> verdict.digest == db.envelopes[j].digest
    requires after.jobs == NextJobs(db.jobs, j, verdict, now)
    requires after.envelopes == NextEnvelopes(db.envelopes, j, verdict, now)
    requires after.letters == NextLetters(db, j, verdict, now)
    requires after.operations == db.operations
    ensures LettersSound(after)
  {
    forall x | ForJob(x) in after.letters ensures LetterSound(after, x, after.letters[ForJob(x)]) {
      if ForJob(x) in db.letters { assert LetterSound(db, x, db.letters[ForJob(x)]); }
    }
  }

  lemma VerdictKeepsRows(db: Db, j: JobId, verdict: Verdict, now: Instant, after: Db)
    requires RowsSound(db)
    requires HasJob(db.jobs, j) && !Terminal(db.jobs[j.key].status) && !verdict.Untouched?
    requires verdict.ToFailed? ==> db.jobs[j.key].failureAttempts < 2
    requires after.jobs == NextJobs(db.jobs, j, verdict, now)
    requires after.envelopes == NextEnvelopes(db.envelopes, j, verdict, now)
    requires after.letters == NextLetters(db, j, verdict, now)
    ensures RowsSound(after)
  {
    forall k | k in after.jobs ensures RowSound(after, k, after.jobs[k]) {
      assert RowSound(db, k, db.jobs[k]);
    }
  }

  /** Exactly when a replay is newly published: the call is real, its key is new, the job is dead,
      its envelope is there, and no effect of it is done or uncertain. */
  lemma PublishesIff(db: Db, j: JobId, key: IdempotencyKey, dryRun: bool)
    requires LedgerInv(db)
    ensures Publishes(db, j, key, dryRun) <==>
      !dryRun && key !in db.operations && IsDead(db.jobs, j) && j in db.envelopes && !EffectSettled(db.effects, j)
  {
    if j in db.envelopes { assert EnvelopeSound(db.jobs, j, db.envelopes[j]); }
    if ForJob(j) in db.letters { assert LetterSound(db, j, db.letters[ForJob(j)]); }
    if IsDead(db.jobs, j) { assert RowSound(db, j.key, db.jobs[j.key]); }
  }

  /** What a publication does, in full: the dead row starts a new life, its envelope is active again,
      the key is spent, and one message carrying the sealed job enters the inbox. */
  lemma PublicationEffect(db: Db, j: JobId, key: IdempotencyKey, now: Instant)
    requires LedgerInv(db) && Publishes(db, j, key, false)
    ensures IsDead(db.jobs, j) && j in db.envelopes && db.envelopes[j].status == EnvelopeDead
    ensures db.envelopes[j].sealed.Parsed? && db.envelopes[j].sealed.job.jobId == j
    ensures var after := Replay(db, j, key, false, now);
      && after.jobs == db.jobs[j.key := db.jobs[j.key].(status := Failed, failureAttempts := 0, errorClass := None,
                                                        errorMessage := None, finishedAt := None, updatedAt := now)]
      && after.envelopes == db.envelopes[j := db.envelopes[j].(status := Active, updatedAt := now)]
      && after.operations == db.operations[key := OperationRow(j, ReplayMessage(j, key), true, now)]
      && after.inbox.Keys == db.inbox.Keys + {ReplayMessage(j, key)}
      && (ReplayMessage(j, key) !in db.inbox ==>
            after.inbox[ReplayMessage(j, key)] == ReplayedInboxRow(db.envelopes[j].sealed.job, now))
      && after.letters == db.letters && after.effects == db.effects && after.runs == db.runs
  {
    PublishesIff(db, j, key, false);
    assert RowSound(db, j.key, db.jobs[j.key]);
    assert LetterSound(db, j, db.letters[ForJob(j)]);
    assert EnvelopeSound(db.jobs, j, db.envelopes[j]);
  }

  lemma ReplayKeepsLedger(db: Db, j: JobId, key: IdempotencyKey, dryRun: bool, now: Instant)
    requires LedgerInv(db)
    ensures LedgerInv(Replay(db, j, key, dryRun, now))
  {
    if Publishes(db, j, key, dryRun) {
      PublicationEffect(db, j, key, now);
      PublicationKeepsLedger(db, j, key, now, Replay(db, j, key, dryRun, now));
    }
  }

  /** `after` is the ledger once job `j` has been republished under `key`. */
  predicate Republished(db: Db, j: JobId, key: IdempotencyKey, now: Instant, after: Db) {
    && IsDead(db.jobs, j) && j in db.envelopes && key !in db.operations
    && after.jobs == db.jobs[j.key := db.jobs[j.key].(status := Failed, failureAttempts := 0, errorClass := None,
                                                      errorMessage := None, finishedAt := None, updatedAt := now)]
    && after.envelopes == db.envelopes[j := db.envelopes[j].(status := Active, updatedAt := now)]
    && after.operations == db.operations[key := OperationRow(j, ReplayMessage(j, key), true, now)]
    && after.letters == db.letters
  }

  lemma PublicationKeepsRows(db: Db, j: JobId, key: IdempotencyKey, now: Instant, after: Db)
    requires EnvelopesSound(db) && RowsSound(db) && Republished(db, j, key, now, after)
    ensures EnvelopesSound(after) && RowsSound(after)
  {
    forall e | e in after.envelopes ensures EnvelopeSound(after.jobs, e, after.envelopes[e]) {
      assert EnvelopeSound(db.jobs, e, db.envelopes[e]);
    }
    forall k | k in after.jobs ensures RowSound(after, k, after.jobs[k]) {
      assert RowSound(db, k, db.jobs[k]);
    }
  }

  lemma PublicationKeepsLetter(db: Db, j: JobId, key: IdempotencyKey, now: Instant, after: Db, x: JobId)
    requires LettersSound(db) && Republished(db, j, key, now, after) && ForJob(x) in db.letters
    ensures LetterSound(after, x, db.letters[ForJob(x)])
  {
    assert LetterSound(db, x, db.letters[ForJob(x)]);
    if x == j {
      assert after.operations[key].jobId == j;
    } else if WasReplayed(db.operations, x) {
      var y :| y in db.operations && db.operations[y].jobId == x && db.operations[y].published;
      assert after.operations[y] == db.operations[y];
    }
  }

  lemma PublicationKeepsRest(db: Db, j: JobId, key: IdempotencyKey, now: Instant, after: Db)
    requires OneEnvelopePerKey(db.envelopes) && OperationsSound(db) && Republished(db, j, key, now, after)
    ensures OneEnvelopePerKey(after.envelopes) && OperationsSound(after) && after.letters == db.letters
  {
  }

  lemma PublicationKeepsLedger(db: Db, j: JobId, key: IdempotencyKey, now: Instant, after: Db)
    requires LedgerInv(db) && Republished(db, j, key, now, after)
    ensures LedgerInv(after)
  {
    PublicationKeepsRows(db, j, key, now, after);
    PublicationKeepsRest(db, j, key, now, after);
    forall x | ForJob(x) in db.letters ensures LetterSound(after, x, db.letters[ForJob(x)]) {
      PublicationKeepsLetter(db, j, key, now, after, x);
    }
  }

  lemma StepKeepsLedger(s: System, step: Step)
    requires LedgerInv(s.db)
    ensures LedgerInv(Apply(s, step).db)
  {
    if Enabled(s, step) {
      match step
      case ClaimStep(lease, now) => ClaimKeepsLedger(s.db, s.held[lease].body.job, now);
      case FinishStep(lease, input, now) => FinishKeepsLedger(s.db, s.held[lease].body.job.jobId, input, now);
      case ReplayStep(j, key, dryRun, now) => ReplayKeepsLedger(s.db, j, key, dryRun, now);
      case _ => SameLedger(s.db, Apply(s, step).db);
    }
  }

  /** Nothing else touches these tables, except that rejects add letters no job owns. */
  lemma SameLedger(db: Db, after: Db)
    requires LedgerInv(db)
    requires after.jobs == db.jobs && after.envelopes == db.envelopes && after.operations == db.operations
    requires forall j :: ForJob(j) in after.letters <==> ForJob(j) in db.letters
    requires forall j :: ForJob(j) in db.letters ==> after.letters[ForJob(j)] == db.letters[ForJob(j)]
    ensures LedgerInv(after)
  {
    forall j | ForJob(j) in after.letters ensures LetterSound(after, j, after.letters[ForJob(j)]) {
      assert LetterSound(db, j, db.letters[ForJob(j)]);
    }
    forall k | k in after.jobs ensures RowSound(after, k, after.jobs[k]) { assert RowSound(db, k, db.jobs[k]); }
  }

  lemma {:induction false} LedgerInvHolds(steps: seq<Step>)
    ensures LedgerInv(Exec(steps).db)
  {
    if steps != [] {
      LedgerInvHolds(steps[..|steps| - 1]);
      StepKeepsLedger(Exec(steps[..|steps| - 1]), steps[|steps| - 1]);
    }
  }
}
