/** What claiming a job is answered, and what that means over whole runs: a job is handed to one worker at a time, and
    one whose worker has gone silent is handed on. */
module Claims {
  import opened Basics
  import opened Identifiers
  import opened Store
  import opened Protocol
  import opened Ledger
  import opened History

  /** The answer to a claim for a job that has a row. */
  lemma AnswersExactly(jobs: Jobs, job: Job, now: Instant)
    requires job.DedupeKey() in jobs
    ensures var row, answer := jobs[job.DedupeKey()], ClaimAnswerFor(jobs, job, now);
      && (answer == Duplicate <==> row.status == Done || row.status == Dead || row.status == Uncertain)
      && (answer == Busy <==> row.status == Processing && now - row.updatedAt <= 600_000)
      && (answer.Waiting? <==>
            row.status == Deferred && exists t :: row.deferredUntil == Some(t) && t > now)
      && (answer.Waiting? ==> row.deferredUntil == Some(answer.retryAt))
      && (answer.Claimed? ==> answer.attempts == row.attempts + 1)
  {
    var row := jobs[job.DedupeKey()];
    if row.deferredUntil.Some? { assert row.deferredUntil == Some(row.deferredUntil.value); }
  }

  /** A failed job is granted at once, a deferred one when it is due, one being processed when its worker has been
      silent for more than ten minutes, and a new one always. */
  lemma GrantedExactly(jobs: Jobs, job: Job, now: Instant)
    ensures var k := job.DedupeKey();
      ClaimAnswerFor(jobs, job, now).Claimed? <==>
        || k !in jobs
        || jobs[k].status == Failed
        || (jobs[k].status == Deferred && (jobs[k].deferredUntil.Some? ==> jobs[k].deferredUntil.value <= now))
        || (jobs[k].status == Processing && now - jobs[k].updatedAt > 600_000)
  {
  }

  /** The step claims the job under `k`, and the claim is granted. */
  predicate Grants(s: System, step: Step, k: DedupeKey) {
    step.ClaimStep? && Enabled(s, step) && s.held[step.lease].body.job.DedupeKey() == k &&
    ClaimAnswerFor(s.db.jobs, s.held[step.lease].body.job, step.now).Claimed?
  }

  /** Nobody reports the job or republishes it. */
  predicate LeavesRow(s: System, step: Step, k: DedupeKey) {
    && (step.FinishStep? && Enabled(s, step) ==> s.held[step.lease].body.job.DedupeKey() != k)
    && (step.ReplayStep? ==> step.jobId.key != k)
  }

  predicate AllLeaveRow(s: System, steps: seq<Step>, k: DedupeKey) {
    steps == [] ||
    (AllLeaveRow(s, steps[..|steps| - 1], k) && LeavesRow(ExecFrom(s, steps[..|steps| - 1]), steps[|steps| - 1], k))
  }

  /** The row is being processed, by a claim no older than `at`. */
  predicate ProcessedSince(jobs: Jobs, k: DedupeKey, at: Instant) {
    k in jobs && jobs[k].status == Processing && jobs[k].updatedAt >= at
  }

  lemma GrantMarks(s: System, step: Step, k: DedupeKey)
    requires Grants(s, step, k)
    ensures ProcessedSince(Apply(s, step).db.jobs, k, step.now)
    ensures Apply(s, step).db.jobs[k].updatedAt == step.now
  {
  }

  lemma ClaimKeepsProcessed(jobs: Jobs, job: Job, now: Instant, k: DedupeKey, at: Instant)
    requires ProcessedSince(jobs, k, at)
    ensures ProcessedSince(ClaimedJobs(jobs, job, now), k, at)
    ensures job.DedupeKey() == k && ClaimAnswerFor(jobs, job, now).Claimed? ==> now - at > 600_000
  {
  }

  lemma StepKeepsProcessed(s: System, step: Step, k: DedupeKey, at: Instant)
    requires LedgerInv(s.db) && ProcessedSince(s.db.jobs, k, at) && LeavesRow(s, step, k)
    ensures ProcessedSince(Apply(s, step).db.jobs, k, at)
  {
    if step.ClaimStep? {
      if Enabled(s, step) { ClaimKeepsProcessed(s.db.jobs, s.held[step.lease].body.job, step.now, k, at); }
    } else if step.FinishStep? {
      if Enabled(s, step) { FinishRow(s.db, s.held[step.lease].body.job.jobId, step.input, step.now, k); }
    } else if step.ReplayStep? && Republishes(s, step, step.jobId) {
      PublicationMovesJobs(s, step);
    } else {
      OthersLeaveJobs(s, step);
    }
  }

  lemma {:induction false} StaysProcessed(before: seq<Step>, between: seq<Step>, k: DedupeKey, at: Instant)
    requires ProcessedSince(Exec(before).db.jobs, k, at) && AllLeaveRow(Exec(before), between, k)
    ensures ProcessedSince(Exec(before + between).db.jobs, k, at)
  {
    if between == [] {
      assert before + between == before;
    } else {
      var n := |between| - 1;
      var run := before + between;
      assert run[..|run| - 1] == before + between[..n] && run[|run| - 1] == between[n];
      StaysProcessed(before, between[..n], k, at);
      ExecConcat(before, between[..n]);
      LedgerInvHolds(before + between[..n]);
      StepKeepsProcessed(Exec(before + between[..n]), between[n], k, at);
    }
  }

  /** Two claims of one job that are both granted, with no report and no publication for it between them, carry clocks
      more than ten minutes apart: nobody is granted a job that somebody else is working on. */
  lemma GrantsAreApart(before: seq<Step>, first: Step, between: seq<Step>, second: Step, k: DedupeKey)
    requires Grants(Exec(before), first, k) && Grants(Exec(before + [first] + between), second, k)
    requires AllLeaveRow(Exec(before + [first]), between, k)
    ensures second.now - first.now > 600_000
  {
    var granted := before + [first];
    assert granted[..|before|] == before;
    GrantMarks(Exec(before), first, k);
    StaysProcessed(granted, between, k, first.now);
    var s := Exec(granted + between);
    ClaimKeepsProcessed(s.db.jobs, s.held[second.lease].body.job, second.now, k, first.now);
  }

  /** And one whose worker has gone silent is handed on: ten minutes after the last grant the next claim is granted. */
  lemma SilentIsTakenOver(before: seq<Step>, first: Step, second: Step, k: DedupeKey)
    requires Grants(Exec(before), first, k) && second.ClaimStep? && Enabled(Exec(before + [first]), second)
    requires Exec(before + [first]).held[second.lease].body.job.DedupeKey() == k
    ensures Grants(Exec(before + [first]), second, k) <==> second.now - first.now > 600_000
  {
    assert (before + [first])[..|before|] == before;
    GrantMarks(Exec(before), first, k);
  }
}
