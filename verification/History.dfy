/** Properties of whole runs that count what happened along the way: replays against deaths, failures
    against the budget, hand-outs against `attempts`, and what is never undone. */
module History {
  import opened Basics
  import opened Identifiers
  import opened Store
  import opened Protocol
  import opened Ledger

  // ------------------------------------------------------------ naming steps

  /** The step finishes job `j`, with the given verdict on its row. */
  predicate Finishes(s: System, step: Step, j: JobId) {
    step.FinishStep? && Enabled(s, step) && s.held[step.lease].body.job.jobId == j
  }

  predicate Kills(s: System, step: Step, j: JobId) {
    Finishes(s, step, j) && VerdictFor(s.db, j, step.input).ToDead?
  }

  /** A failed report that reaches a live row. */
  predicate FailsOnce(s: System, step: Step, k: DedupeKey) {
    step.FinishStep? && Enabled(s, step) &&
    var j := s.held[step.lease].body.job.jobId;
    j.key == k && (VerdictFor(s.db, j, step.input).ToFailed? || VerdictFor(s.db, j, step.input).ToDead?)
  }

  predicate Republishes(s: System, step: Step, j: JobId) {
    step.ReplayStep? && step.jobId == j && Publishes(s.db, j, step.key, step.dryRun)
  }

  predicate PublishesKey(s: System, step: Step, key: IdempotencyKey) {
    step.ReplayStep? && step.key == key && Publishes(s.db, step.jobId, key, step.dryRun)
  }

  predicate HandsOut(s: System, step: Step, m: MessageId) {
    step.PullStep? && Enabled(s, step) && exists h :: h in step.hands && h.message == m
  }

  // ---------------------------------------------------------------- counting

  function Deaths(steps: seq<Step>, j: JobId): nat {
    if steps == [] then 0
    else
      var before := steps[..|steps| - 1];
      Deaths(before, j) + if Kills(Exec(before), steps[|steps| - 1], j) then 1 else 0
  }

  function Replays(steps: seq<Step>, j: JobId): nat {
    if steps == [] then 0
    else
      var before := steps[..|steps| - 1];
      Replays(before, j) + if Republishes(Exec(before), steps[|steps| - 1], j) then 1 else 0
  }

  function Publications(steps: seq<Step>, key: IdempotencyKey): nat {
    if steps == [] then 0
    else
      var before := steps[..|steps| - 1];
      Publications(before, key) + if PublishesKey(Exec(before), steps[|steps| - 1], key) then 1 else 0
  }

  /** Failed reports on the job since it was first claimed or last republished. */
  function FailuresThisLife(steps: seq<Step>, k: DedupeKey): nat {
    if steps == [] then 0
    else
      var before, step := steps[..|steps| - 1], steps[|steps| - 1];
      if step.ReplayStep? && step.jobId.key == k && Republishes(Exec(before), step, step.jobId) then 0
      else FailuresThisLife(before, k) + if FailsOnce(Exec(before), step, k) then 1 else 0
  }

  /** Hand-outs of the message since it entered the inbox. */
  function HandOuts(steps: seq<Step>, m: MessageId): nat {
    if steps == [] then 0
    else
      var before, step := steps[..|steps| - 1], steps[|steps| - 1];
      if m !in Exec(before).db.inbox then 0
      else HandOuts(before, m) + if HandsOut(Exec(before), step, m) then 1 else 0
  }

  // -------------------------------------------------- replays and deaths

  /** Only claims, finishes and publications touch job rows. */
  lemma OthersLeaveJobs(s: System, step: Step)
    requires !step.ClaimStep? && !step.FinishStep? && !(step.ReplayStep? && Republishes(s, step, step.jobId))
    ensures Apply(s, step).db.jobs == s.db.jobs
  {
  }

  /** A publication revives the dead row of its job, with a fresh budget, and touches no other row. */
  lemma PublicationMovesJobs(s: System, step: Step)
    requires LedgerInv(s.db) && step.ReplayStep? && Republishes(s, step, step.jobId)
    ensures IsDead(s.db.jobs, step.jobId)
    ensures var before, after := s.db.jobs, Apply(s, step).db.jobs;
      after == before[step.jobId.key := after[step.jobId.key]] && HasJob(after, step.jobId) &&
      after[step.jobId.key].status == Failed && after[step.jobId.key].failureAttempts == 0
  {
    PublicationEffect(s.db, step.jobId, step.key, step.now);
  }

  /** A step kills or revives a job only by a dead-letter verdict or a publication. */
  lemma DeadMoves(s: System, step: Step, j: JobId)
    requires LedgerInv(s.db)
    ensures Kills(s, step, j) ==> !IsDead(s.db.jobs, j) && IsDead(Apply(s, step).db.jobs, j)
    ensures Republishes(s, step, j) ==> IsDead(s.db.jobs, j) && !IsDead(Apply(s, step).db.jobs, j)
    ensures !Kills(s, step, j) && !Republishes(s, step, j) ==> IsDead(Apply(s, step).db.jobs, j) == IsDead(s.db.jobs, j)
  {
    if step.ClaimStep? {
      if Enabled(s, step) { ClaimKeepsDead(s.db.jobs, s.held[step.lease].body.job, step.now, j); }
    } else if step.FinishStep? {
      if Enabled(s, step) { FinishMovesDead(s.db, s.held[step.lease].body.job.jobId, step.input, step.now, j); }
    } else if step.ReplayStep? && Republishes(s, step, step.jobId) {
      PublicationMovesJobs(s, step);
    } else {
      OthersLeaveJobs(s, step);
    }
  }

  lemma FinishMovesDead(db: Db, x: JobId, input: JobResult, now: Instant, j: JobId)
    ensures var after := FinishJob(db, x, input, now).jobs;
      if x == j && VerdictFor(db, x, input).ToDead? then !IsDead(db.jobs, j) && IsDead(after, j)
      else IsDead(after, j) == IsDead(db.jobs, j)
  {
  }

  /** Every death but the last has been replayed, and the last one too unless the job is dead now. */
  lemma {:induction false} ReplaysMatchDeaths(steps: seq<Step>, j: JobId)
    ensures Deaths(steps, j) == Replays(steps, j) + if IsDead(Exec(steps).db.jobs, j) then 1 else 0
  {
    if steps != [] {
      var before := steps[..|steps| - 1];
      ReplaysMatchDeaths(before, j);
      LedgerInvHolds(before);
      DeadMoves(Exec(before), steps[|steps| - 1], j);
    }
  }

  lemma OperationsGrow(s: System, step: Step, key: IdempotencyKey)
    ensures key in Apply(s, step).db.operations <==> key in s.db.operations || PublishesKey(s, step, key)
    ensures PublishesKey(s, step, key) ==> key !in s.db.operations
  {
  }

  /** An idempotency key publishes once in a whole run, and is on record exactly if it did. */
  lemma {:induction false} KeyPublishesOnce(steps: seq<Step>, key: IdempotencyKey)
    ensures Publications(steps, key) == if key in Exec(steps).db.operations then 1 else 0
  {
    if steps != [] {
      var before := steps[..|steps| - 1];
      KeyPublishesOnce(before, key);
      OperationsGrow(Exec(before), steps[|steps| - 1], key);
    }
  }

  /** In a reachable state a publication moves exactly one row, from dead to failed with its budget
      restored, and adds exactly one message, which was not there before. */
  lemma PublicationInRun(steps: seq<Step>, j: JobId, key: IdempotencyKey, now: Instant)
    requires Publishes(Exec(steps).db, j, key, false)
    ensures var db, after := Exec(steps).db, Replay(Exec(steps).db, j, key, false, now);
      && IsDead(db.jobs, j)
      && after.jobs == db.jobs[j.key := db.jobs[j.key].(status := Failed, failureAttempts := 0, errorClass := None,
                                                        errorMessage := None, finishedAt := None, updatedAt := now)]
      && ReplayMessage(j, key) !in db.inbox && j in db.envelopes
      && after.inbox.Keys == db.inbox.Keys + {ReplayMessage(j, key)}
      && after.inbox[ReplayMessage(j, key)].body.Parsed?
      && after.inbox[ReplayMessage(j, key)].body == db.envelopes[j].sealed
      && after.inbox[ReplayMessage(j, key)].body.job.jobId == j
      && after.inbox[ReplayMessage(j, key)].attempts == 0 && Eligible(after.inbox, ReplayMessage(j, key), now)
  {
    LedgerInvHolds(steps);
    QueueInvHolds(steps);
    PublicationEffect(Exec(steps).db, j, key, now);
  }

  /** A dry run, a refusal and a repeated key leave every table as it was. */
  lemma DryRunChangesNothing(db: Db, j: JobId, key: IdempotencyKey, now: Instant)
    ensures Replay(db, j, key, true, now) == db
    ensures key in db.operations ==> Replay(db, j, key, false, now) == db
    ensures forall settled ::
      FindsSettled(db.effects, j, settled) && ReplayAnswerFor(db, j, key, false, settled).status == Rejected ==>
        Replay(db, j, key, false, now) == db
  {
  }

  // ------------------------------------------------------------- the budget

  lemma FinishMovesBudget(db: Db, x: JobId, input: JobResult, now: Instant, k: DedupeKey)
    requires k in db.jobs
    ensures k in FinishJob(db, x, input, now).jobs
    ensures var verdict := VerdictFor(db, x, input);
      FinishJob(db, x, input, now).jobs[k].failureAttempts ==
        db.jobs[k].failureAttempts + if x.key == k && (verdict.ToFailed? || verdict.ToDead?) then 1 else 0
  {
  }

  lemma ClaimKeepsBudget(jobs: Jobs, job: Job, now: Instant, k: DedupeKey)
    requires k in jobs
    ensures var after := ClaimedJobs(jobs, job, now);
      k in after && after[k].failureAttempts == jobs[k].failureAttempts
  {
  }

  lemma BudgetMoves(s: System, step: Step, k: DedupeKey)
    requires LedgerInv(s.db) && k in s.db.jobs
    ensures k in Apply(s, step).db.jobs
    ensures Apply(s, step).db.jobs[k].failureAttempts ==
      if step.ReplayStep? && step.jobId.key == k && Republishes(s, step, step.jobId) then 0
      else s.db.jobs[k].failureAttempts + if FailsOnce(s, step, k) then 1 else 0
  {
    if step.FinishStep? {
      if Enabled(s, step) { FinishMovesBudget(s.db, s.held[step.lease].body.job.jobId, step.input, step.now, k); }
    } else if step.ReplayStep? && Republishes(s, step, step.jobId) {
      PublicationMovesJobs(s, step);
    } else if step.ClaimStep? {
      if Enabled(s, step) { ClaimKeepsBudget(s.db.jobs, s.held[step.lease].body.job, step.now, k); }
    } else {
      OthersLeaveJobs(s, step);
    }
  }

  lemma FirstClaimHasNoFailures(s: System, step: Step, k: DedupeKey)
    requires LedgerInv(s.db) && k !in s.db.jobs
    ensures !FailsOnce(s, step, k)
    ensures step.ReplayStep? && step.jobId.key == k ==> !Republishes(s, step, step.jobId)
    ensures k in Apply(s, step).db.jobs ==> Apply(s, step).db.jobs[k].failureAttempts == 0
  {
    if step.ReplayStep? { PublishesIff(s.db, step.jobId, step.key, step.dryRun); }
  }

  /** The budget column counts exactly the failed reports of this life: deferrals, busy answers and
      re-claims leave it alone, and a publication starts it over. */
  lemma {:induction false} BudgetCountsFailures(steps: seq<Step>, k: DedupeKey)
    ensures FailuresThisLife(steps, k) ==
      if k in Exec(steps).db.jobs then Exec(steps).db.jobs[k].failureAttempts else 0
  {
    if steps != [] {
      var before, step := steps[..|steps| - 1], steps[|steps| - 1];
      BudgetCountsFailures(before, k);
      LedgerInvHolds(before);
      if k in Exec(before).db.jobs { BudgetMoves(Exec(before), step, k); }
      else { FirstClaimHasNoFailures(Exec(before), step, k); }
    }
  }

  /** At most three failed reports a life, and at most two on a job that can still run. */
  lemma BudgetBound(steps: seq<Step>, k: DedupeKey)
    ensures FailuresThisLife(steps, k) <= 3
    ensures k in Exec(steps).db.jobs && !Terminal(Exec(steps).db.jobs[k].status) ==> FailuresThisLife(steps, k) <= 2
  {
    BudgetCountsFailures(steps, k);
    LedgerInvHolds(steps);
    if k in Exec(steps).db.jobs { assert RowSound(Exec(steps).db, k, Exec(steps).db.jobs[k]); }
  }

  /** The wait after a failure is 30 seconds the first time and 60 the second. */
  lemma FailureDelays(steps: seq<Step>, j: JobId, input: JobResult, now: Instant)
    requires input.ReportFailed? && FinishAnswerFor(Exec(steps).db, j, input, now).Retry?
    ensures FinishAnswerFor(Exec(steps).db, j, input, now).delaySeconds ==
      if FailuresThisLife(steps, j.key) == 0 then 30 else 60
  {
    BudgetCountsFailures(steps, j.key);
    var fa := Exec(steps).db.jobs[j.key].failureAttempts;
    assert fa == 0 || fa == 1;
    assert Pow2(0) == 1 && Pow2(1) == 2;
  }

  // ----------------------------------------------------- what is never undone

  lemma ClaimKeepsTerminal(jobs: Jobs, job: Job, now: Instant, k: DedupeKey)
    requires k in jobs && Terminal(jobs[k].status)
    ensures k in ClaimedJobs(jobs, job, now) && ClaimedJobs(jobs, job, now)[k] == jobs[k]
  {
  }

  /** A terminal row is frozen: only a publication of its own job moves it, and only from dead. */
  lemma TerminalMoves(s: System, step: Step, k: DedupeKey)
    requires LedgerInv(s.db) && k in s.db.jobs && Terminal(s.db.jobs[k].status)
    ensures k in Apply(s, step).db.jobs
    ensures Apply(s, step).db.jobs[k] != s.db.jobs[k] ==>
      s.db.jobs[k].status == Dead && Republishes(s, step, s.db.jobs[k].jobId)
  {
    assert RowSound(s.db, k, s.db.jobs[k]);
    if step.ClaimStep? {
      if Enabled(s, step) { ClaimKeepsTerminal(s.db.jobs, s.held[step.lease].body.job, step.now, k); }
    } else if step.FinishStep? {
      if Enabled(s, step) { FinishRow(s.db, s.held[step.lease].body.job.jobId, step.input, step.now, k); }
    } else if step.ReplayStep? && Republishes(s, step, step.jobId) {
      PublicationMovesJobs(s, step);
    } else {
      OthersLeaveJobs(s, step);
    }
  }

  predicate Settled(jobs: Jobs, k: DedupeKey) { k in jobs && (jobs[k].status == Done || jobs[k].status == Uncertain) }

  lemma SettledStays(s: System, step: Step, k: DedupeKey)
    requires LedgerInv(s.db) && Settled(s.db.jobs, k)
    ensures Settled(Apply(s, step).db.jobs, k) && Apply(s, step).db.jobs[k] == s.db.jobs[k]
  {
    TerminalMoves(s, step, k);
  }

  /** Done and uncertain are for ever. */
  lemma {:induction false} DoneIsForEver(before: seq<Step>, after: seq<Step>, k: DedupeKey)
    requires Settled(Exec(before).db.jobs, k)
    ensures Settled(Exec(before + after).db.jobs, k) && Exec(before + after).db.jobs[k] == Exec(before).db.jobs[k]
  {
    if after == [] {
      assert before + after == before;
    } else {
      var n := |after| - 1;
      DoneIsForEver(before, after[..n], k);
      var run := before + after;
      assert run[..|run| - 1] == before + after[..n] && run[|run| - 1] == after[n];
      LedgerInvHolds(before + after[..n]);
      SettledStays(Exec(before + after[..n]), after[n], k);
    }
  }

  // ------------------------------------------------------------- the leases

  predicate Current(inbox: Inbox, lease: LeaseId) { exists m :: m in inbox && HeldBy(inbox[m], lease) }

  lemma InboxBringsNoLeaseBack(before: Inbox, step: Step, after: Inbox, lease: LeaseId)
    requires InboxMove(before, step, after) && !Current(before, lease)
    requires step.PullStep? ==> forall h :: h in step.hands ==> h.leaseId != lease
    ensures !Current(after, lease)
  {
    if step.StageStep? {
      StageRows(before, step.messages, step.now);
    } else if step.PullStep? {
      LeaseAllKeys(ReclaimExpired(before, step.now), step.hands, step.now + step.visibilityMs, step.now);
      forall m | m in after ensures !HeldBy(after[m], lease) { PulledRow(before, step, m); }
    }
  }

  /** Once a lease is no longer the current lease of its message, it never is again. */
  lemma LeaseNeverReturns(s: System, step: Step, lease: LeaseId)
    requires lease in s.held && !Current(s.db.inbox, lease)
    ensures lease in Apply(s, step).held && !Current(Apply(s, step).db.inbox, lease)
  {
    if Enabled(s, step) {
      StepInbox(s, step);
      InboxBringsNoLeaseBack(s.db.inbox, step, Apply(s, step).db.inbox, lease);
      if step.PullStep? { HoldKeeps(s.held, s.db.inbox, step.hands); }
    }
  }

  /** Settling a lease that has been reclaimed or used leaves the inbox as it is. */
  lemma StaleSettleIsNoOp(inbox: Inbox, acks: seq<LeaseId>, retries: seq<RetryLine>, now: Instant)
    requires forall l :: l in acks ==> !Current(inbox, l)
    requires forall r :: r in retries ==> !Current(inbox, r.leaseId)
    ensures Settle(inbox, acks, retries, now) == inbox
  {
    forall m | m in inbox && inbox[m].state.Leased? ensures RetryDelay(retries, inbox[m].state.leaseId) == None {
      NoLineNoDelay(retries, inbox[m].state.leaseId);
    }
  }

  lemma {:induction false} NoLineNoDelay(retries: seq<RetryLine>, lease: LeaseId)
    ensures RetryDelay(retries, lease).None? <==> forall r :: r in retries ==> r.leaseId != lease
  {
    if retries != [] {
      NoLineNoDelay(retries[1..], lease);
    }
  }

  /** A settlement removes exactly the messages whose current lease it acknowledges, leaves alone every row whose lease
      it does not name, and puts the others back into the queue for their delay. */
  lemma SettleExactly(inbox: Inbox, acks: seq<LeaseId>, retries: seq<RetryLine>, now: Instant, m: MessageId)
    ensures var after := Settle(inbox, acks, retries, now);
      m in after <==> m in inbox && !(inbox[m].state.Leased? && inbox[m].state.leaseId in acks)
    ensures var after := Settle(inbox, acks, retries, now);
      m in inbox && (inbox[m].state.Leased? ==>
        inbox[m].state.leaseId !in acks && forall r :: r in retries ==> r.leaseId != inbox[m].state.leaseId) ==>
      after[m] == inbox[m]
    ensures var after := Settle(inbox, acks, retries, now);
      m in inbox && inbox[m].state.Leased? && inbox[m].state.leaseId !in acks ==>
      forall r :: r in retries && r.leaseId == inbox[m].state.leaseId ==>
        after[m].state == Queued && after[m].body == inbox[m].body && after[m].attempts == inbox[m].attempts &&
        after[m].createdAt == inbox[m].createdAt
  {
    if m in inbox && inbox[m].state.Leased? { NoLineNoDelay(retries, inbox[m].state.leaseId); }
  }

  /** The step puts message `m` into the inbox if it is not there. */
  predicate Inserts(step: Step, m: MessageId) {
    || (step.StageStep? && exists message :: message in step.messages && External(message.id) == m)
    || (step.ReplayStep? && m == ReplayMessage(step.jobId, step.key))
  }

  lemma {:induction false} StagedOnly(inbox: Inbox, messages: seq<Incoming>, now: Instant, m: MessageId)
    requires m !in inbox && m in Stage(inbox, messages, now)
    ensures exists message :: message in messages && External(message.id) == m
  {
    var n := |messages| - 1;
    if External(messages[n].id) == m {
      assert messages[n] in messages;
    } else {
      StagedOnly(inbox, messages[..n], now, m);
    }
  }

  lemma OnlyInserted(before: Inbox, step: Step, after: Inbox, m: MessageId)
    requires InboxMove(before, step, after) && m !in before && !Inserts(step, m)
    ensures m !in after
  {
    if step.StageStep? && m in after {
      StagedOnly(before, step.messages, step.now, m);
    } else if step.PullStep? {
      LeaseAllKeys(ReclaimExpired(before, step.now), step.hands, step.now + step.visibilityMs, step.now);
    }
  }

  /** A message that is staged for the first time may be handed out at once, with the body it was staged with. */
  lemma {:induction false} StagedIsDue(inbox: Inbox, messages: seq<Incoming>, now: Instant, m: MessageId)
    requires m !in inbox && exists message :: message in messages && External(message.id) == m
    ensures var after := Stage(inbox, messages, now);
      Eligible(after, m, now) && after[m].attempts == 0 &&
      exists message :: message in messages && External(message.id) == m && message.body == after[m].body
  {
    var n := |messages| - 1;
    var rest, last := messages[..n], messages[n];
    assert messages == rest + [last];
    if message :| message in rest && External(message.id) == m {
      StagedIsDue(inbox, rest, now, m);
    } else {
      assert last in messages;
      if m in Stage(inbox, rest, now) { StagedOnly(inbox, rest, now, m); }
    }
  }

  /** A message that is not in the inbox stays out, and is not handed out, until something inserts it. */
  lemma {:induction false} GoneStaysGone(s: System, steps: seq<Step>, m: MessageId)
    requires m !in s.db.inbox && forall step :: step in steps ==> !Inserts(step, m)
    ensures m !in ExecFrom(s, steps).db.inbox
    ensures forall step :: !HandsOut(ExecFrom(s, steps), step, m)
  {
    if steps != [] {
      var n := |steps| - 1;
      var before := ExecFrom(s, steps[..n]);
      GoneStaysGone(s, steps[..n], m);
      if Enabled(before, steps[n]) {
        StepInbox(before, steps[n]);
        assert steps[n] in steps;
        OnlyInserted(before.db.inbox, steps[n], Apply(before, steps[n]).db.inbox, m);
      }
    }
  }

  /** Once a settlement acknowledges the current lease of a message, the message is out of the inbox, and no pull hands
      it out, until a staging or a publication inserts it again. */
  lemma AckedIsGone(steps: seq<Step>, settle: Step, more: seq<Step>, m: MessageId)
    requires settle.SettleStep? && Enabled(Exec(steps), settle) && m in Exec(steps).db.inbox
    requires Exec(steps).db.inbox[m].state.Leased? && Exec(steps).db.inbox[m].state.leaseId in settle.acks
    requires forall step :: step in more ==> !Inserts(step, m)
    ensures m !in Exec(steps + [settle] + more).db.inbox
    ensures forall step :: !HandsOut(Exec(steps + [settle] + more), step, m)
  {
    var after := steps + [settle];
    assert after[..|steps|] == steps;
    SettleExactly(Exec(steps).db.inbox, settle.acks, settle.retries, settle.now, m);
    ExecConcat(after, more);
    GoneStaysGone(Exec(after), more, m);
  }

  /** The step leaves lease `l`, good until `until`, in force: it does not settle it, and if it is a
      `pull` its clock has not reached `until`. */
  predicate Respects(step: Step, l: LeaseId, until: Instant) {
    && (step.PullStep? ==> step.now < until)
    && (step.SettleStep? ==> l !in step.acks && forall r :: r in step.retries ==> r.leaseId != l)
  }

  /** Until it is settled or runs out, a lease keeps its message: nobody else is handed it. */
  lemma {:induction false} LeaseExclusive(s: System, steps: seq<Step>, m: MessageId, l: LeaseId, until: Instant)
    requires m in s.db.inbox && s.db.inbox[m].state == Leased(l, until)
    requires forall step :: step in steps ==> Respects(step, l, until)
    ensures m in ExecFrom(s, steps).db.inbox && ExecFrom(s, steps).db.inbox[m].state == Leased(l, until)
    ensures forall step :: Respects(step, l, until) ==> !HandsOut(ExecFrom(s, steps), step, m)
  {
    if steps != [] {
      var n := |steps| - 1;
      LeaseExclusive(s, steps[..n], m, l, until);
      RespectedLeaseStays(ExecFrom(s, steps[..n]), steps[n], m, l, until);
    }
  }

  lemma RespectedLeaseStays(s: System, step: Step, m: MessageId, l: LeaseId, until: Instant)
    requires m in s.db.inbox && s.db.inbox[m].state == Leased(l, until) && Respects(step, l, until)
    ensures m in Apply(s, step).db.inbox && Apply(s, step).db.inbox[m].state == Leased(l, until)
  {
    if Enabled(s, step) {
      StepInbox(s, step);
      LeasedRowStays(s.db.inbox, step, Apply(s, step).db.inbox, m);
    }
  }

  lemma LeasedRowStays(before: Inbox, step: Step, after: Inbox, m: MessageId)
    requires InboxMove(before, step, after) && m in before && before[m].state.Leased?
    requires Respects(step, before[m].state.leaseId, before[m].state.until)
    ensures m in after && after[m] == before[m]
  {
    if step.StageStep? {
      StageRows(before, step.messages, step.now);
    } else if step.PullStep? {
      PulledRow(before, step, m);
    } else if step.SettleStep? {
      NoLineNoDelay(step.retries, before[m].state.leaseId);
    }
  }

  /** Nobody is handed the message, and nobody settles the lease it is under. */
  predicate LeavesAlone(s: System, step: Step, m: MessageId) {
    && !HandsOut(s, step, m)
    && (step.SettleStep? && m in s.db.inbox && s.db.inbox[m].state.Leased? ==>
          s.db.inbox[m].state.leaseId !in step.acks &&
          forall r :: r in step.retries ==> r.leaseId != s.db.inbox[m].state.leaseId)
  }

  ghost predicate LeftAlone(s: System, steps: seq<Step>, m: MessageId) {
    forall i :: 0 <= i < |steps| ==> LeavesAlone(ExecFrom(s, steps[..i]), steps[i], m)
  }

  /** The latest clock among `due` and the pulls. */
  function Latest(steps: seq<Step>, due: Instant): Instant {
    if steps == [] then due
    else
      var n := |steps| - 1;
      if steps[n].PullStep? then Max(Latest(steps[..n], due), steps[n].now) else Latest(steps[..n], due)
  }

  /** A pull that does not hand the message out leaves its row, or reclaims the lease that has run out. */
  lemma RowStaysDue(before: Inbox, step: Step, after: Inbox, m: MessageId)
    requires InboxMove(before, step, after) && m in before
    requires step.PullStep? ==> forall h :: h in step.hands ==> h.message != m
    requires step.SettleStep? && before[m].state.Leased? ==> Respects(step, before[m].state.leaseId, step.now)
    ensures m in after && after[m].body == before[m].body
    ensures DueAt(after[m]) <= if step.PullStep? then Max(DueAt(before[m]), step.now) else DueAt(before[m])
  {
    if step.StageStep? {
      StageRows(before, step.messages, step.now);
    } else if step.PullStep? {
      PulledRow(before, step, m);
    } else if step.SettleStep? && before[m].state.Leased? {
      NoLineNoDelay(step.retries, before[m].state.leaseId);
    }
  }

  lemma DueMoves(s: System, step: Step, m: MessageId)
    requires m in s.db.inbox && LeavesAlone(s, step, m)
    ensures var after := Apply(s, step).db.inbox;
      && m in after && after[m].body == s.db.inbox[m].body
      && DueAt(after[m]) <= if step.PullStep? then Max(DueAt(s.db.inbox[m]), step.now) else DueAt(s.db.inbox[m])
  {
    if Enabled(s, step) {
      StepInbox(s, step);
      RowStaysDue(s.db.inbox, step, Apply(s, step).db.inbox, m);
    }
  }

  lemma {:induction false} StaysDue(s: System, steps: seq<Step>, m: MessageId)
    requires m in s.db.inbox && LeftAlone(s, steps, m)
    ensures var after := ExecFrom(s, steps).db.inbox;
      m in after && after[m].body == s.db.inbox[m].body && DueAt(after[m]) <= Latest(steps, DueAt(s.db.inbox[m]))
  {
    if steps != [] {
      var n := |steps| - 1;
      forall i | 0 <= i < n ensures LeavesAlone(ExecFrom(s, steps[..n][..i]), steps[..n][i], m) {
        assert steps[..n][..i] == steps[..i];
      }
      StaysDue(s, steps[..n], m);
      DueMoves(ExecFrom(s, steps[..n]), steps[n], m);
    }
  }

  /** A job that is not over comes round again: it has a message, and whatever else happens, as long as nobody is
      handed that message or settles it, every pull whose clock has reached the end of its lease, and the clocks of
      the pulls in between, may hand it out. */
  lemma ComesRoundAgain(steps: seq<Step>, k: DedupeKey)
    requires k in Exec(steps).db.jobs && !Terminal(Exec(steps).db.jobs[k].status)
    ensures exists m :: CarriedBy(Exec(steps), k, m) && MayBeHandedOut(Exec(steps), m)
  {
    NoStrandedJob(steps, k);
    var m :| CarriedBy(Exec(steps), k, m);
    forall more, now | LeftAlone(Exec(steps), more, m) && now >= Latest(more, DueAt(Exec(steps).db.inbox[m]))
      ensures Eligible(ReclaimExpired(ExecFrom(Exec(steps), more).db.inbox, now), m, now)
    {
      StaysDue(Exec(steps), more, m);
      EveryMessageComesDue(ExecFrom(Exec(steps), more).db.inbox, m, now);
    }
  }

  ghost predicate MayBeHandedOut(s: System, m: MessageId) {
    m in s.db.inbox &&
    forall more, now :: LeftAlone(s, more, m) && now >= Latest(more, DueAt(s.db.inbox[m])) ==>
      Eligible(ReclaimExpired(ExecFrom(s, more).db.inbox, now), m, now)
  }

  lemma RowCountsHandOut(before: Inbox, step: Step, after: Inbox, m: MessageId)
    requires InboxMove(before, step, after) && m in after
    ensures m !in before ==> after[m].attempts == 0
    ensures m in before ==>
      var handedOut := step.PullStep? && exists h :: h in step.hands && h.message == m;
      after[m].attempts == before[m].attempts + if handedOut then 1 else 0
  {
    if step.StageStep? {
      StageRows(before, step.messages, step.now);
    } else if step.PullStep? {
      LeaseAllKeys(ReclaimExpired(before, step.now), step.hands, step.now + step.visibilityMs, step.now);
      if m in before { PulledRow(before, step, m); }
    }
  }

  lemma AttemptsMove(s: System, step: Step, m: MessageId)
    requires m in Apply(s, step).db.inbox
    ensures m !in s.db.inbox ==> Apply(s, step).db.inbox[m].attempts == 0
    ensures m in s.db.inbox ==>
      Apply(s, step).db.inbox[m].attempts == s.db.inbox[m].attempts + if HandsOut(s, step, m) then 1 else 0
  {
    if Enabled(s, step) {
      StepInbox(s, step);
      RowCountsHandOut(s.db.inbox, step, Apply(s, step).db.inbox, m);
    }
  }

  /** `attempts` is the number of times the message was handed out since it entered the inbox. */
  lemma {:induction false} AttemptsCountHandOuts(steps: seq<Step>, m: MessageId)
    requires m in Exec(steps).db.inbox
    ensures Exec(steps).db.inbox[m].attempts == HandOuts(steps, m)
  {
    if steps != [] {
      var before := steps[..|steps| - 1];
      if m in Exec(before).db.inbox { AttemptsCountHandOuts(before, m); }
      AttemptsMove(Exec(before), steps[|steps| - 1], m);
    }
  }
}
