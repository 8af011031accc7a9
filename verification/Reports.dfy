/** What reporting a job is answered and does to its row, and what the rows of every reachable state look like. */
module Reports {
  import opened Basics
  import opened Identifiers
  import opened Effects
  import opened Store
  import opened Protocol
  import opened Ledger
  import opened History
  import SyncRun

  /** A report on a job that has no row, or is over, changes nothing. */
  lemma ReportTooLate(db: Db, j: JobId, input: JobResult, now: Instant)
    requires !HasJob(db.jobs, j) || db.jobs[j.key].status in {Done, Dead, Uncertain}
    ensures FinishJob(db, j, input, now) == db
    ensures FinishAnswerFor(db, j, input, now) == if HasJob(db.jobs, j) then Ack else JobNotFound
  {
    if j.key in db.jobs { assert db.jobs[j.key := db.jobs[j.key]] == db.jobs; }
  }

  predicate LiveJob(jobs: Jobs, j: JobId) {
    j.key in jobs && jobs[j.key].jobId == j && jobs[j.key].status in {Processing, Deferred, Failed}
  }

  /** What a report does to a live job, unless it is one of failure. */
  lemma ReportOnLiveJob(db: Db, j: JobId, input: JobResult, now: Instant)
    requires LiveJob(db.jobs, j) && !input.ReportFailed?
    ensures var answer, after := FinishAnswerFor(db, j, input, now), FinishJob(db, j, input, now);
      && after.letters == db.letters && after.inbox == db.inbox && after.jobs.Keys == db.jobs.Keys
      && after.jobs[j.key].failureAttempts == db.jobs[j.key].failureAttempts
      && match input
         case ReportDone(_) => after.jobs[j.key].status == Done && answer == Ack && j !in after.envelopes
         case ReportUncertain(reason) =>
           after.jobs[j.key].status == Uncertain && answer == Ack && after.envelopes.Keys == db.envelopes.Keys &&
           after.jobs[j.key].errorMessage == Some(if |reason| <= 500 then reason else reason[..500])
         case ReportDeferred(retryAt, reason) =>
           after.jobs[j.key].status == Deferred && after.envelopes == db.envelopes &&
           after.jobs[j.key].deferredUntil == Some(retryAt) && after.jobs[j.key].deferredReason == Some(reason) &&
           after.jobs[j.key].deferralCount == db.jobs[j.key].deferralCount + 1 &&
           answer.Retry? && LeastDelay(answer.delaySeconds, retryAt, now)
         case _ => true
  {
    FinishFrame(db, j, input, now);
    if input.ReportDeferred? { DelayIsLeast(input.retryAt, now); }
  }

  /** The fewest whole seconds, from 1 to 300, that reach `retryAt`. */
  predicate LeastDelay(seconds: int, retryAt: Instant, now: Instant) {
    && 1 <= seconds <= 300
    && (seconds < 300 ==> now + seconds * 1000 >= retryAt)
    && (seconds > 1 ==> now + (seconds - 1) * 1000 < retryAt)
  }

  lemma DelayIsLeast(retryAt: Instant, now: Instant)
    ensures LeastDelay(RetryDelaySeconds(retryAt, now), retryAt, now)
  {
  }

  // ---------------------------------------------------------- failed reports

  /** The step reports a live job as failed. */
  predicate FailsLive(s: System, step: Step, j: JobId) {
    step.FinishStep? && Enabled(s, step) && s.held[step.lease].body.job.jobId == j && step.input.ReportFailed? &&
    LiveJob(s.db.jobs, j)
  }

  /** Anything but "retryable" counts as permanent. */
  predicate IsPermanent(input: JobResult)
    requires input.ReportFailed?
  {
    input.errorClass != Some(Retryable)
  }

  /** The dead letter can be written: the envelope has the digest, or the report brings it. */
  predicate DigestKnown(db: Db, j: JobId, input: JobResult)
    requires input.ReportFailed?
  {
    j in db.envelopes || input.payloadDigest.Some?
  }

  /** A failed report on a live job kills it exactly if the failure is permanent or the third of this life, and the
      digest for the letter is known; without one it is refused and changes nothing. Any other failure leaves the job
      to be tried again after 30 seconds, or 60 the second time. */
  lemma FailureExactly(steps: seq<Step>, step: Step, j: JobId)
    requires FailsLive(Exec(steps), step, j)
    ensures var s, failures := Exec(steps), FailuresThisLife(steps, j.key);
      var after, answer := Apply(s, step), FinishAnswerFor(s.db, j, step.input, step.now);
      && failures <= 2 && j.key in after.db.jobs
      && if IsPermanent(step.input) || failures == 2 then
           if DigestKnown(s.db, j, step.input) then
             answer == Ack && Killed(s.db, j, step.input, step.now, after.db, failures)
           else answer == DigestRequired && after.db == s.db
         else
           && answer == Retry(if failures == 0 then 30 else 60)
           && after.db.jobs[j.key].status == Failed && after.db.jobs[j.key].failureAttempts == failures + 1
           && after.db.letters == s.db.letters && after.db.envelopes == s.db.envelopes
  {
    var s := Exec(steps);
    BudgetBound(steps, j.key);
    BudgetCountsFailures(steps, j.key);
    FailureOnRow(s.db, j, step.input, step.now);
  }

  /** The row is dead, its letter says why, and its envelope is kept for a replay. */
  predicate Killed(db: Db, j: JobId, input: JobResult, now: Instant, after: Db, failures: nat)
    requires input.ReportFailed?
  {
    && j.key in after.jobs && after.jobs[j.key].status == Dead && after.jobs[j.key].failureAttempts == failures + 1
    && ForJob(j) in after.letters && LetterSays(db, j, input, now, after.letters[ForJob(j)], failures)
    && after.envelopes.Keys == db.envelopes.Keys
    && (j in after.envelopes ==>
          after.envelopes[j].status == EnvelopeDead && after.envelopes[j].sealed == db.envelopes[j].sealed)
  }

  predicate LetterSays(db: Db, j: JobId, input: JobResult, now: Instant, letter: LetterRow, failures: nat)
    requires input.ReportFailed?
  {
    && letter.attempts == failures + 1 && letter.createdAt == now
    && letter.errorClass == (if IsPermanent(input) then Permanent else Retryable)
    && |letter.errorMessage| <= 500
    && (input.errorMessage.Some? && |input.errorMessage.value| <= 500 ==>
          letter.errorMessage == input.errorMessage.value)
    && Some(letter.digest) == (if j in db.envelopes then Some(db.envelopes[j].digest) else input.payloadDigest)
    && letter.envelopeJobId == (if j in db.envelopes then Some(j) else None)
  }

  lemma FailureOnRow(db: Db, j: JobId, input: JobResult, now: Instant)
    requires LiveJob(db.jobs, j) && input.ReportFailed? && db.jobs[j.key].failureAttempts <= 2
    ensures var failures := db.jobs[j.key].failureAttempts;
      var after, answer := FinishJob(db, j, input, now), FinishAnswerFor(db, j, input, now);
      && j.key in after.jobs
      && if IsPermanent(input) || failures == 2 then
           if DigestKnown(db, j, input) then answer == Ack && Killed(db, j, input, now, after, failures)
           else answer == DigestRequired && after == db
         else
           && answer == Retry(if failures == 0 then 30 else 60)
           && after.jobs[j.key].status == Failed && after.jobs[j.key].failureAttempts == failures + 1
           && after.letters == db.letters && after.envelopes == db.envelopes
  {
    var failures := db.jobs[j.key].failureAttempts;
    assert Pow2(0) == 1 && Pow2(1) == 2;
    if IsPermanent(input) || failures == 2 {
      if DigestKnown(db, j, input) {
        DeathOnRow(db, j, input, now);
      } else {
        assert db.jobs[j.key := db.jobs[j.key]] == db.jobs;
      }
    }
  }

  lemma DeathOnRow(db: Db, j: JobId, input: JobResult, now: Instant)
    requires LiveJob(db.jobs, j) && input.ReportFailed? && DigestKnown(db, j, input)
    requires IsPermanent(input) || db.jobs[j.key].failureAttempts == 2
    ensures FinishAnswerFor(db, j, input, now) == Ack
    ensures Killed(db, j, input, now, FinishJob(db, j, input, now), db.jobs[j.key].failureAttempts)
  {
    DeathLetter(db, j, input, now);
    assert j in db.envelopes ==> db.envelopes.Keys + {j} == db.envelopes.Keys;
  }

  lemma DeathLetter(db: Db, j: JobId, input: JobResult, now: Instant)
    requires LiveJob(db.jobs, j) && input.ReportFailed? && DigestKnown(db, j, input)
    requires IsPermanent(input) || db.jobs[j.key].failureAttempts == 2
    ensures var letters := FinishJob(db, j, input, now).letters;
      ForJob(j) in letters &&
      LetterSays(db, j, input, now, letters[ForJob(j)], db.jobs[j.key].failureAttempts)
  {
  }

  // ------------------------------------------------------------ what rows look like

  /** The columns of a row agree with its status. */
  predicate InShape(row: JobRow) {
    && row.attempts >= 1
    && (row.finishedAt.Some? <==> row.status in {Done, Dead, Uncertain})
    && (row.status == Deferred ==> row.deferredUntil.Some? && row.deferredReason.Some?)
    && (row.status in {Processing, Failed, Done, Dead} ==> row.deferredUntil == None && row.deferredReason == None)
    && (row.status in {Processing, Deferred, Done} ==> row.errorClass == None && row.errorMessage == None)
    && (row.status == Failed ==> (row.errorClass.Some? <==> row.errorMessage.Some?))
    && (row.status == Dead ==> row.errorClass.Some? && row.errorMessage.Some?)
    && (row.status == Uncertain ==> row.errorMessage.Some?)
    && (row.status == Done <==> row.summary.Some?)
  }

  ghost predicate AllInShape(jobs: Jobs) { forall k :: k in jobs ==> InShape(jobs[k]) }

  lemma ClaimKeepsShape(jobs: Jobs, job: Job, now: Instant)
    requires AllInShape(jobs)
    ensures AllInShape(ClaimedJobs(jobs, job, now))
  {
  }

  lemma FinishKeepsShape(db: Db, j: JobId, input: JobResult, now: Instant)
    requires AllInShape(db.jobs)
    ensures AllInShape(FinishJob(db, j, input, now).jobs)
  {
  }

  lemma StepKeepsShape(s: System, step: Step)
    requires LedgerInv(s.db) && AllInShape(s.db.jobs)
    ensures AllInShape(Apply(s, step).db.jobs)
  {
    if step.ClaimStep? {
      if Enabled(s, step) { ClaimKeepsShape(s.db.jobs, s.held[step.lease].body.job, step.now); }
    } else if step.FinishStep? {
      if Enabled(s, step) { FinishKeepsShape(s.db, s.held[step.lease].body.job.jobId, step.input, step.now); }
    } else if step.ReplayStep? && Republishes(s, step, step.jobId) {
      PublicationKeepsShape(s.db, step.jobId, step.key, step.now);
    } else {
      OthersLeaveJobs(s, step);
    }
  }

  lemma PublicationKeepsShape(db: Db, j: JobId, key: IdempotencyKey, now: Instant)
    requires LedgerInv(db) && AllInShape(db.jobs) && Publishes(db, j, key, false)
    ensures AllInShape(Replay(db, j, key, false, now).jobs)
  {
    PublicationEffect(db, j, key, now);
    assert InShape(db.jobs[j.key]);
  }

  /** In every reachable state: a row has ended exactly if it is terminal, waits exactly while it is deferred, names an
      error exactly where it failed, and has a summary exactly if it is done. */
  lemma {:induction false} RowsInShape(steps: seq<Step>)
    ensures AllInShape(Exec(steps).db.jobs)
  {
    if steps != [] {
      var before := steps[..|steps| - 1];
      RowsInShape(before);
      LedgerInvHolds(before);
      StepKeepsShape(Exec(before), steps[|steps| - 1]);
    }
  }

  // -------------------------------------------------------------- envelopes

  /** An article that is not done has its envelope. */
  ghost predicate Sealed(db: Db, k: DedupeKey) {
    k in db.jobs && db.jobs[k].kind == DispatchItem(Article) && db.jobs[k].status != Done ==>
      exists e :: e in db.envelopes && e.key == k
  }

  ghost predicate AllSealed(db: Db) { forall k :: k in db.jobs ==> Sealed(db, k) }

  lemma ClaimKeepsSealed(db: Db, job: Job, now: Instant, k: DedupeKey)
    requires LedgerInv(db) && AllSealed(db)
    ensures Sealed(ClaimJob(db, job, now), k)
  {
    var after := ClaimJob(db, job, now);
    if k in db.jobs {
      assert Sealed(db, k);
      if e :| e in db.envelopes && e.key == k { assert e in after.envelopes; }
    } else if job.DedupeKey() == k && job.IsArticle() {
      if job.jobId in db.envelopes { assert EnvelopeSound(db.jobs, job.jobId, db.envelopes[job.jobId]); }
      assert job.jobId in after.envelopes && job.jobId.key == k;
    }
  }

  lemma FinishKeepsSealed(db: Db, j: JobId, input: JobResult, now: Instant, k: DedupeKey)
    requires AllSealed(db)
    ensures Sealed(FinishJob(db, j, input, now), k)
  {
    var after := FinishJob(db, j, input, now);
    if k in db.jobs {
      assert Sealed(db, k);
      if e :| e in db.envelopes && e.key == k {
        if e in after.envelopes { assert e.key == k; }
      }
    }
  }

  lemma StepKeepsSealed(s: System, step: Step, k: DedupeKey)
    requires LedgerInv(s.db) && AllSealed(s.db)
    ensures Sealed(Apply(s, step).db, k)
  {
    if step.ClaimStep? {
      if Enabled(s, step) { ClaimKeepsSealed(s.db, s.held[step.lease].body.job, step.now, k); }
    } else if step.FinishStep? {
      if Enabled(s, step) { FinishKeepsSealed(s.db, s.held[step.lease].body.job.jobId, step.input, step.now, k); }
    } else if step.ReplayStep? && Republishes(s, step, step.jobId) {
      PublicationKeepsSealed(s, step, k);
    } else {
      OthersLeaveJobs(s, step);
      OthersLeaveEnvelopes(s, step);
      SealedStays(s.db, Apply(s, step).db, k);
    }
  }

  lemma OthersLeaveEnvelopes(s: System, step: Step)
    requires !step.ClaimStep? && !step.FinishStep? && !(step.ReplayStep? && Republishes(s, step, step.jobId))
    ensures Apply(s, step).db.envelopes == s.db.envelopes
  {
  }

  lemma SealedStays(db: Db, after: Db, k: DedupeKey)
    requires AllSealed(db) && after.jobs == db.jobs && after.envelopes == db.envelopes
    ensures Sealed(after, k)
  {
    assert k in db.jobs ==> Sealed(db, k);
  }

  lemma PublicationKeepsSealed(s: System, step: Step, k: DedupeKey)
    requires LedgerInv(s.db) && AllSealed(s.db) && step.ReplayStep? && Republishes(s, step, step.jobId)
    ensures Sealed(Apply(s, step).db, k)
  {
    PublicationEffect(s.db, step.jobId, step.key, step.now);
    assert k in s.db.jobs ==> Sealed(s.db, k);
    if e :| e in s.db.envelopes && e.key == k { assert e in Apply(s, step).db.envelopes; }
  }

  /** In every reachable state an article that is not done has an envelope: the one its first claim filed. */
  lemma {:induction false} ArticlesAreSealed(steps: seq<Step>)
    ensures AllSealed(Exec(steps).db)
  {
    if steps != [] {
      var before := steps[..|steps| - 1];
      ArticlesAreSealed(before);
      LedgerInvHolds(before);
      forall k ensures Sealed(Exec(steps).db, k) { StepKeepsSealed(Exec(before), steps[|steps| - 1], k); }
    }
  }

  // --------------------------------------------------------- unreadable bodies

  lemma MessageLetterStays(s: System, step: Step, m: MessageId)
    requires ForMessage(m) in s.db.letters
    ensures ForMessage(m) in Apply(s, step).db.letters
    ensures Apply(s, step).db.letters[ForMessage(m)] == s.db.letters[ForMessage(m)]
  {
  }

  lemma {:induction false} MessageLettersStay(before: seq<Step>, more: seq<Step>, m: MessageId)
    requires ForMessage(m) in Exec(before).db.letters
    ensures ForMessage(m) in Exec(before + more).db.letters
    ensures Exec(before + more).db.letters[ForMessage(m)] == Exec(before).db.letters[ForMessage(m)]
  {
    if more == [] {
      assert before + more == before;
    } else {
      var n := |more| - 1;
      var run := before + more;
      assert run[..|run| - 1] == before + more[..n] && run[|run| - 1] == more[n];
      MessageLettersStay(before, more[..n], m);
      MessageLetterStays(Exec(before + more[..n]), more[n], m);
    }
  }

  /** The first rejection of a message files its letter, which names no job, counts as permanent, and is the same after
      any continuation; a later rejection of the message changes nothing. */
  lemma BadBodyOnFile(before: seq<Step>, step: Step, more: seq<Step>)
    requires step.RejectStep? && Enabled(Exec(before), step)
    ensures var s := Exec(before);
      var id := ForMessage(s.held[step.lease].message);
      && id in Exec(before + [step] + more).db.letters
      && Exec(before + [step]).db == s.db.(letters := Exec(before + [step]).db.letters)
      && Exec(before + [step]).db.letters - {id} == s.db.letters - {id}
      && Exec(before + [step] + more).db.letters[id] ==
        if id in s.db.letters then s.db.letters[id]
        else
          LetterRow(None, None, step.attempts, Permanent,
                    if |step.reason| <= 500 then step.reason else step.reason[..500],
                    Digest(s.held[step.lease].body), None, step.now)
  {
    var run := before + [step];
    assert run[..|run| - 1] == before && run[|run| - 1] == step;
    MessageLettersStay(run, more, Exec(before).held[step.lease].message);
  }
}
