/** How a deferred job waits, over whole runs of the protocol. The queue holds the message back for at most 300
    seconds at a time, the claim keeps answering "deferred" until `retryAt`, and the worker turns each of those
    answers into the next delay. */
module Deferral {
  import opened Basics
  import opened Identifiers
  import opened Store
  import opened Database
  import opened Protocol
  import opened History
  import opened QueueProcessor

  const LONGEST_WAIT_MS: int := 300_000

  /** A lease settled with a delay leaves its message unavailable until exactly that delay has passed. */
  lemma SettledRetryWaits(inbox: Inbox, acks: seq<LeaseId>, retries: seq<RetryLine>, settledAt: Instant,
                          m: MessageId, line: RetryLine, now: Instant)
    requires m in inbox && HeldBy(inbox[m], line.leaseId) && line.leaseId !in acks
    requires line in retries && forall r :: r in retries && r.leaseId == line.leaseId ==> r == line
    ensures var after := Settle(inbox, acks, retries, settledAt);
      && m in after && after[m].state == Queued
      && after[m].availableAt == settledAt + GetOr(line.delaySeconds, 0) * 1000
      && (Eligible(ReclaimExpired(after, now), m, now) <==> now >= settledAt + GetOr(line.delaySeconds, 0) * 1000)
  {
    OnlyLineCounts(retries, line);
  }

  lemma {:induction false} OnlyLineCounts(retries: seq<RetryLine>, line: RetryLine)
    requires line in retries && forall r :: r in retries && r.leaseId == line.leaseId ==> r == line
    ensures RetryDelay(retries, line.leaseId) == Some(GetOr(line.delaySeconds, 0))
  {
    if retries[0].leaseId == line.leaseId {
      assert retries[0] in retries;
    } else {
      OnlyLineCounts(retries[1..], line);
    }
  }

  /** When the wait decided at `decidedAt` is over at the earliest. */
  function Due(retryAt: Instant, decidedAt: Instant): Instant { Min(retryAt, decidedAt + LONGEST_WAIT_MS) }

  /** The wait never ends before the earlier of `retryAt` and 300 seconds after the decision; it is the shortest one
      of whole seconds, from 1 to 300, that does so when it is settled at once. */
  lemma WaitReaches(retryAt: Instant, decidedAt: Instant, settledAt: Instant)
    requires settledAt >= decidedAt
    ensures settledAt + RetryDelaySeconds(retryAt, decidedAt) * 1000 >= Due(retryAt, decidedAt)
    ensures Due(retryAt, decidedAt) == if retryAt <= decidedAt + 300_000 then retryAt else decidedAt + 300_000
    ensures 1 <= RetryDelaySeconds(retryAt, decidedAt) <= 300
    ensures forall seconds: int :: 1 <= seconds < RetryDelaySeconds(retryAt, decidedAt) ==>
      decidedAt + seconds * 1000 < Due(retryAt, decidedAt)
  {
  }

  /** A deferred job is claimed by the first delivery at or after `retryAt`, and by none before. */
  lemma ClaimedOnceDue(jobs: Jobs, job: Job, retryAt: Instant, now: Instant)
    requires job.DedupeKey() in jobs
    requires jobs[job.DedupeKey()].status == Deferred && jobs[job.DedupeKey()].deferredUntil == Some(retryAt)
    ensures ClaimAnswerFor(jobs, job, now).Claimed? <==> now >= retryAt
    ensures ClaimAnswerFor(jobs, job, now).Waiting? <==> now < retryAt
  {
  }

  // ------------------------------------------------- calls and settlements

  /** A worker's call for a lease. */
  predicate IsCall(s: System, step: Step) {
    (step.ClaimStep? || step.FinishStep? || step.RejectStep?) && Enabled(s, step)
  }

  /** The call and its reply; an error the control plane throws is no reply. */
  function CallOf(s: System, step: Step): Call
    requires IsCall(s, step)
  {
    match step
    case ClaimStep(l, now) => ClaimCall(Some(ClaimAnswerFor(s.db.jobs, s.held[l].body.job, now)))
    case FinishStep(l, input, now) =>
      var answer := FinishAnswerFor(s.db, s.held[l].body.job.jobId, input, now);
      FinishCall(input, if answer.Ack? || answer.Retry? then Some(answer) else None)
    case RejectStep(l, attempts, reason, _) => RejectCall(attempts, reason, Digest(s.held[l].body), true)
  }

  /** The calls made for a lease in a run. */
  function CallsOn(run: seq<Step>, l: LeaseId): seq<Call> {
    if run == [] then []
    else
      var before, step := run[..|run| - 1], run[|run| - 1];
      CallsOn(before, l) + if IsCall(Exec(before), step) && step.lease == l then [CallOf(Exec(before), step)] else []
  }

  /** When the last of them was made. */
  function LastCallAt(run: seq<Step>, l: LeaseId): Instant {
    if run == [] then 0
    else
      var before, step := run[..|run| - 1], run[|run| - 1];
      if IsCall(Exec(before), step) && step.lease == l then step.now else LastCallAt(before, l)
  }

  /** The line the worker was handed for a lease. */
  function LineOfLease(s: System, l: LeaseId): InboxLease
    requires l in s.held
  {
    var m := s.held[l].message;
    InboxLease(if m in s.db.inbox then s.db.inbox[m].attempts else 0, s.held[l].body, m, l,
               if m in s.db.inbox then s.db.inbox[m].timestampMs else 0)
  }

  /** The calls are those of the worker loop, as far as it has got. */
  ghost predicate ProperSoFar(world: World, lease: InboxLease, calls: seq<Call>) {
    exists more :: ProperCalls(world, lease, calls + more)
  }

  /** What the loop says of the lease after the calls it made for it. */
  function Line(world: World, run: seq<Step>, l: LeaseId): Option<Line>
    requires l in Exec(run).held
  {
    LineAfter(world, LineOfLease(Exec(run), l), CallsOn(run, l))
  }

  /** The leases of message `m` are settled: none runs out; the worker makes the calls of its loop while it holds
      the lease; and if it settles the lease, then with the line the loop gives, worked out by its own clock between
      the last call and the settlement. */
  ghost predicate Follows(world: World, run: seq<Step>, step: Step, m: MessageId) {
    var s := Exec(run);
    Enabled(s, step) ==>
      && (step.PullStep? && m in s.db.inbox && s.db.inbox[m].state.Leased? ==> step.now < s.db.inbox[m].state.until)
      && (IsCall(s, step) && s.held[step.lease].message == m ==>
            m in s.db.inbox && HeldBy(s.db.inbox[m], step.lease) &&
            ProperSoFar(world, LineOfLease(s, step.lease), CallsOn(run, step.lease) + [CallOf(s, step)]))
      && (step.SettleStep? ==> forall l :: l in s.held && m in s.db.inbox && HeldBy(s.db.inbox[m], l) ==>
            SettledBy(world, run, step, l))
  }

  ghost predicate SettledBy(world: World, run: seq<Step>, step: Step, l: LeaseId)
    requires step.SettleStep? && l in Exec(run).held
  {
    && (l in step.acks ==> Line(world, run, l) == Some(AckLine))
    && (forall r :: r in step.retries && r.leaseId == l ==>
          Line(world, run, l) == Some(RetryAfter(r.delaySeconds)) &&
          LastCallAt(run, l) <= world.workerClock(l) <= step.now)
  }

  /** The step is a call for lease `l` of message `m` whose answer defers the job until `retryAt`. */
  predicate Defers(s: System, step: Step, m: MessageId, l: LeaseId, retryAt: Instant) {
    && (step.ClaimStep? || step.FinishStep?) && Enabled(s, step) && step.lease == l && s.held[l].message == m
    && match step
       case ClaimStep(_, now) =>
         var answer := ClaimAnswerFor(s.db.jobs, s.held[l].body.job, now);
         answer.Waiting? && answer.retryAt == retryAt
       case FinishStep(_, input, now) =>
         input.ReportDeferred? && input.retryAt == retryAt &&
         FinishAnswerFor(s.db, s.held[l].body.job.jobId, input, now).Retry?
       case _ => false
  }

  /** The worker works out the delay after a deferred claim, the control plane the one after a deferred report. */
  function DecidedAt(world: World, step: Step): Instant {
    if step.ClaimStep? then world.workerClock(step.lease) else step.now
  }

  // ------------------------------------------------------ one message waiting

  /** The loop makes no further call after these. */
  predicate NoMoreCalls(calls: seq<Call>) {
    || (|calls| == 1 && calls[0].ClaimCall? && calls[0].claimed.Some? && calls[0].claimed.value.Waiting?)
    || (|calls| == 2 && calls[1].FinishCall? && calls[1].finished.Some?)
  }

  /** The worker still holds the lease whose answer deferred the job at `at`, and owes it this delay. */
  ghost predicate Owes(world: World, run: seq<Step>, m: MessageId, l: LeaseId, retryAt: Instant, at: Instant,
                       decidedAt: Instant) {
    var s := Exec(run);
    && m in s.db.inbox && HeldBy(s.db.inbox[m], l) && l in s.held && s.held[l].message == m
    && NoMoreCalls(CallsOn(run, l)) && LastCallAt(run, l) == at
    && (decidedAt == at || decidedAt == world.workerClock(l))
    && Line(world, run, l) == Some(RetryAfter(Some(RetryDelaySeconds(retryAt, decidedAt))))
  }

  /** Or the lease has been settled and the message is put away until the wait is over, or the wait is over. */
  ghost predicate PutAway(run: seq<Step>, m: MessageId, due: Instant) {
    var inbox := Exec(run).db.inbox;
    || (m in inbox && inbox[m].state == Queued && inbox[m].availableAt >= due)
    || (run != [] && run[|run| - 1].now >= due)
  }

  ghost predicate Waits(world: World, run: seq<Step>, m: MessageId, l: LeaseId, retryAt: Instant, at: Instant,
                        decidedAt: Instant) {
    || Owes(world, run, m, l, retryAt, at, decidedAt)
    || (at <= decidedAt && PutAway(run, m, Due(retryAt, decidedAt)))
  }

  lemma RunOn(run: seq<Step>, step: Step, l: LeaseId)
    ensures Exec(run + [step]) == Apply(Exec(run), step)
    ensures CallsOn(run + [step], l) ==
      CallsOn(run, l) + if IsCall(Exec(run), step) && step.lease == l then [CallOf(Exec(run), step)] else []
    ensures LastCallAt(run + [step], l) ==
      if IsCall(Exec(run), step) && step.lease == l then step.now else LastCallAt(run, l)
  {
    assert (run + [step])[..|run|] == run;
  }

  /** Claims, reports and rejections leave the inbox alone. */
  lemma CallsKeepInbox(s: System, step: Step)
    requires IsCall(s, step)
    ensures Apply(s, step).db.inbox == s.db.inbox && Apply(s, step).held == s.held
  {
    if step.FinishStep? { FinishFrame(s.db, s.held[step.lease].body.job.jobId, step.input, step.now); }
  }

  lemma DeferringCallIsLast(world: World, lease: InboxLease, calls: seq<Call>, call: Call)
    requires ProperSoFar(world, lease, calls + [call])
    ensures call.ClaimCall? ==> calls == []
    ensures call.FinishCall? && call.input.ReportDeferred? ==> |calls| == 1
    ensures !NoMoreCalls(calls)
  {
    var more :| ProperCalls(world, lease, calls + [call] + more);
    var all := calls + [call] + more;
    assert all[|calls|] == call;
    assert forall k :: 0 <= k < |calls| ==> all[k] == calls[k];
  }

  /** A deferring answer makes the worker owe the delay. */
  lemma DeferralStarts(world: World, run: seq<Step>, step: Step, m: MessageId, l: LeaseId, retryAt: Instant)
    requires Defers(Exec(run), step, m, l, retryAt) && Follows(world, run, step, m)
    ensures Waits(world, run + [step], m, l, retryAt, step.now, DecidedAt(world, step))
  {
    var s := Exec(run);
    RunOn(run, step, l);
    CallsKeepInbox(s, step);
    DeferringCallIsLast(world, LineOfLease(s, l), CallsOn(run, l), CallOf(s, step));
  }

  /** The step is a call for a lease of `m`, or hands `m` out. */
  predicate Touches(s: System, step: Step, m: MessageId) {
    (IsCall(s, step) && s.held[step.lease].message == m) || HandsOut(s, step, m)
  }

  /** While the worker owes the delay it makes no call for the lease. */
  lemma NoCallWhileOwing(world: World, run: seq<Step>, step: Step, m: MessageId, l: LeaseId, retryAt: Instant,
                         at: Instant, decidedAt: Instant)
    requires Owes(world, run, m, l, retryAt, at, decidedAt) && Follows(world, run, step, m)
    requires IsCall(Exec(run), step)
    ensures Exec(run).held[step.lease].message != m
  {
    var s := Exec(run);
    if s.held[step.lease].message == m {
      DeferringCallIsLast(world, LineOfLease(s, l), CallsOn(run, l), CallOf(s, step));
      assert false;
    }
  }

  /** A row under a lease in force changes only when the lease is settled. */
  lemma OnlySettlingMoves(s: System, step: Step, m: MessageId, l: LeaseId)
    requires Enabled(s, step) && !step.SettleStep? && m in s.db.inbox && HeldBy(s.db.inbox[m], l) && l in s.held
    requires step.PullStep? ==> step.now < s.db.inbox[m].state.until
    ensures m in Apply(s, step).db.inbox && Apply(s, step).db.inbox[m] == s.db.inbox[m] && !HandsOut(s, step, m)
    ensures l in Apply(s, step).held && Apply(s, step).held[l] == s.held[l]
  {
    StepInbox(s, step);
    LeasedRowStays(s.db.inbox, step, Apply(s, step).db.inbox, m);
    if step.PullStep? { HoldKeeps(s.held, s.db.inbox, step.hands); }
  }

  lemma OwesStill(world: World, run: seq<Step>, step: Step, m: MessageId, l: LeaseId, retryAt: Instant, at: Instant,
                  decidedAt: Instant, t: System)
    requires Owes(world, run, m, l, retryAt, at, decidedAt) && t == Exec(run + [step])
    requires m in t.db.inbox && t.db.inbox[m] == Exec(run).db.inbox[m] && l in t.held && t.held[l] == Exec(run).held[l]
    requires CallsOn(run + [step], l) == CallsOn(run, l) && LastCallAt(run + [step], l) == LastCallAt(run, l)
    ensures Owes(world, run + [step], m, l, retryAt, at, decidedAt)
  {
  }

  /** Nobody takes the message, and settling the lease puts it away for the delay. */
  lemma OwingGoesOn(world: World, run: seq<Step>, step: Step, m: MessageId, l: LeaseId, retryAt: Instant, at: Instant,
                    decidedAt: Instant)
    requires Owes(world, run, m, l, retryAt, at, decidedAt) && Follows(world, run, step, m) && at <= step.now
    ensures Waits(world, run + [step], m, l, retryAt, at, decidedAt)
    ensures !Touches(Exec(run), step, m)
  {
    var s := Exec(run);
    if IsCall(s, step) { NoCallWhileOwing(world, run, step, m, l, retryAt, at, decidedAt); }
    if Enabled(s, step) && step.SettleStep? {
      SettlingPutsAway(world, run, step, m, l, retryAt, at, decidedAt);
    } else {
      if Enabled(s, step) { OnlySettlingMoves(s, step, m, l); }
      RunOn(run, step, l);
      OwesStill(world, run, step, m, l, retryAt, at, decidedAt, Apply(s, step));
    }
  }

  lemma RetryPutsAway(world: World, run: seq<Step>, step: Step, m: MessageId, l: LeaseId, retryAt: Instant, at: Instant,
                      decidedAt: Instant, r: RetryLine)
    requires Owes(world, run, m, l, retryAt, at, decidedAt) && at <= step.now
    requires step.SettleStep? && Enabled(Exec(run), step) && SettledBy(world, run, step, l)
    requires r in step.retries && r.leaseId == l
    ensures at <= decidedAt && PutAway(run + [step], m, Due(retryAt, decidedAt))
  {
    RunOn(run, step, l);
    SettledRetryWaits(Exec(run).db.inbox, step.acks, step.retries, step.now, m, r, step.now);
    WaitReaches(retryAt, decidedAt, step.now);
  }

  lemma SettlingPutsAway(world: World, run: seq<Step>, step: Step, m: MessageId, l: LeaseId, retryAt: Instant,
                         at: Instant, decidedAt: Instant)
    requires Owes(world, run, m, l, retryAt, at, decidedAt) && Follows(world, run, step, m) && at <= step.now
    requires step.SettleStep? && Enabled(Exec(run), step)
    ensures Waits(world, run + [step], m, l, retryAt, at, decidedAt)
  {
    assert SettledBy(world, run, step, l);
    if r :| r in step.retries && r.leaseId == l {
      RetryPutsAway(world, run, step, m, l, retryAt, at, decidedAt, r);
    } else {
      NoLineNoDelay(step.retries, l);
      RunOn(run, step, l);
      OwesStill(world, run, step, m, l, retryAt, at, decidedAt, Apply(Exec(run), step));
    }
  }

  /** A message that is put away is neither handed out nor called for before the wait is over. */
  lemma PutAwayGoesOn(world: World, run: seq<Step>, step: Step, m: MessageId, due: Instant)
    requires PutAway(run, m, due) && Follows(world, run, step, m) && run != [] && run[|run| - 1].now <= step.now
    ensures PutAway(run + [step], m, due)
    ensures Touches(Exec(run), step, m) ==> step.now >= due
  {
    var s := Exec(run);
    assert (run + [step])[..|run|] == run;
    if step.now < due && Enabled(s, step) { QueuedRowStays(s, step, m); }
  }

  lemma QueuedRowStays(s: System, step: Step, m: MessageId)
    requires Enabled(s, step) && m in s.db.inbox && s.db.inbox[m].state == Queued
    requires step.now < s.db.inbox[m].availableAt
    ensures m in Apply(s, step).db.inbox && Apply(s, step).db.inbox[m] == s.db.inbox[m] && !HandsOut(s, step, m)
  {
    StepInbox(s, step);
    if step.StageStep? {
      StageRows(s.db.inbox, step.messages, step.now);
    } else if step.PullStep? {
      PulledRow(s.db.inbox, step, m);
    }
  }

  lemma WaitingGoesOn(world: World, run: seq<Step>, step: Step, m: MessageId, l: LeaseId, retryAt: Instant, at: Instant,
                      decidedAt: Instant)
    requires Waits(world, run, m, l, retryAt, at, decidedAt) && Follows(world, run, step, m)
    requires run != [] && run[|run| - 1].now <= step.now && at <= step.now
    ensures Waits(world, run + [step], m, l, retryAt, at, decidedAt)
    ensures Touches(Exec(run), step, m) ==> at <= decidedAt && step.now >= Due(retryAt, decidedAt)
  {
    if Owes(world, run, m, l, retryAt, at, decidedAt) {
      OwingGoesOn(world, run, step, m, l, retryAt, at, decidedAt);
    } else {
      PutAwayGoesOn(world, run, step, m, Due(retryAt, decidedAt));
    }
  }

  // -------------------------------------------------------------- whole runs

  /** Step `from` of the run defers the job of message `m` until `retryAt`, from there on `m`'s leases are settled, and
      the clock never goes back. */
  ghost predicate DeferredAt(world: World, run: seq<Step>, from: nat, m: MessageId, l: LeaseId, retryAt: Instant) {
    from < |run| &&
    var before, step := run[..|run| - 1], run[|run| - 1];
    && Follows(world, before, step, m)
    && if from == |before| then Defers(Exec(before), step, m, l, retryAt)
       else DeferredAt(world, before, from, m, l, retryAt) && before[|before| - 1].now <= step.now
  }

  lemma {:induction false} WaitsFrom(world: World, run: seq<Step>, from: nat, m: MessageId, l: LeaseId,
                                     retryAt: Instant)
    requires DeferredAt(world, run, from, m, l, retryAt)
    ensures Waits(world, run, m, l, retryAt, run[from].now, DecidedAt(world, run[from]))
    ensures run[from].now <= run[|run| - 1].now
  {
    var before, step := run[..|run| - 1], run[|run| - 1];
    assert run == before + [step];
    if from == |before| {
      DeferralStarts(world, before, step, m, l, retryAt);
    } else {
      WaitsFrom(world, before, from, m, l, retryAt);
      WaitingGoesOn(world, before, step, m, l, retryAt, run[from].now, DecidedAt(world, run[from]));
    }
  }

  /** A deferred message is neither handed out again, by any pull of any worker, nor called for again before the
      earlier of `retryAt` and 300 seconds after the delay was worked out. */
  lemma NotTouchedBefore(world: World, run: seq<Step>, from: nat, m: MessageId, l: LeaseId, retryAt: Instant)
    requires DeferredAt(world, run, from, m, l, retryAt) && from < |run| - 1
    requires Touches(Exec(run[..|run| - 1]), run[|run| - 1], m)
    ensures run[from].now <= DecidedAt(world, run[from])
    ensures run[|run| - 1].now >= Min(retryAt, DecidedAt(world, run[from]) + LONGEST_WAIT_MS)
  {
    var before, step := run[..|run| - 1], run[|run| - 1];
    WaitsFrom(world, before, from, m, l, retryAt);
    WaitingGoesOn(world, before, step, m, l, retryAt, run[from].now, DecidedAt(world, run[from]));
  }

  /** A claim for the message is answered "deferred until `retryAt`". */
  predicate StillWaits(s: System, step: Step, m: MessageId, retryAt: Instant) {
    step.ClaimStep? && Defers(s, step, m, step.lease, retryAt)
  }

  /** How often that happens after step `from`. */
  function Answers(run: seq<Step>, from: nat, m: MessageId, retryAt: Instant): nat {
    if |run| <= from + 1 then 0
    else
      var before := run[..|run| - 1];
      Answers(before, from, m, retryAt) + if StillWaits(Exec(before), run[|run| - 1], m, retryAt) then 1 else 0
  }

  /** Where it happened last; `from` if it never did. */
  function LastAnswer(run: seq<Step>, from: nat, m: MessageId, retryAt: Instant): nat {
    if |run| <= from + 1 then from
    else
      var before := run[..|run| - 1];
      if StillWaits(Exec(before), run[|run| - 1], m, retryAt) then |before| else LastAnswer(before, from, m, retryAt)
  }

  /** Each such answer defers the job anew, comes at least 300 seconds after the one before, and before `retryAt`. */
  lemma AnswerIsApart(world: World, run: seq<Step>, from: nat, m: MessageId, l: LeaseId, retryAt: Instant)
    requires DeferredAt(world, run, from, m, l, retryAt) && from < |run| - 1
    requires StillWaits(Exec(run[..|run| - 1]), run[|run| - 1], m, retryAt)
    ensures run[from].now + LONGEST_WAIT_MS <= run[|run| - 1].now < retryAt
    ensures DeferredAt(world, run, |run| - 1, m, run[|run| - 1].lease, retryAt)
  {
    NotTouchedBefore(world, run, from, m, l, retryAt);
  }

  ghost predicate Spread(world: World, run: seq<Step>, from: nat, m: MessageId, l: LeaseId, retryAt: Instant, n: nat,
                         last: nat) {
    && from <= last < |run| && run[from].now + n * LONGEST_WAIT_MS <= run[last].now
    && (exists k :: DeferredAt(world, run, last, m, k, retryAt))
    && (n > 0 ==> run[last].now < retryAt)
  }

  lemma {:induction false} AnswersAreSpread(world: World, run: seq<Step>, from: nat, m: MessageId, l: LeaseId,
                                            retryAt: Instant)
    requires DeferredAt(world, run, from, m, l, retryAt)
    ensures Spread(world, run, from, m, l, retryAt, Answers(run, from, m, retryAt), LastAnswer(run, from, m, retryAt))
  {
    var before, step := run[..|run| - 1], run[|run| - 1];
    if from < |before| {
      AnswersAreSpread(world, before, from, m, l, retryAt);
      SpreadGoesOn(world, run, from, m, l, retryAt, Answers(before, from, m, retryAt),
                   LastAnswer(before, from, m, retryAt));
    }
  }

  lemma SpreadGoesOn(world: World, run: seq<Step>, from: nat, m: MessageId, l: LeaseId, retryAt: Instant, n: nat,
                     last: nat)
    requires DeferredAt(world, run, from, m, l, retryAt) && from < |run| - 1
    requires Spread(world, run[..|run| - 1], from, m, l, retryAt, n, last)
    ensures var again := StillWaits(Exec(run[..|run| - 1]), run[|run| - 1], m, retryAt);
      Spread(world, run, from, m, l, retryAt, n + if again then 1 else 0, if again then |run| - 1 else last)
  {
    var before, step := run[..|run| - 1], run[|run| - 1];
    var k :| DeferredAt(world, before, last, m, k, retryAt);
    assert DeferredAt(world, run, last, m, k, retryAt);
    if StillWaits(Exec(before), step, m, retryAt) {
      AnswerIsApart(world, run, last, m, k, retryAt);
      assert DeferredAt(world, run, |run| - 1, m, step.lease, retryAt);
    }
  }

  /** With R milliseconds to wait when the job is deferred, at most ceil(R / 300 s) - 1 further claims for the
      message are answered "deferred until `retryAt`", in any run whatever. */
  lemma DeferralsAreBounded(world: World, run: seq<Step>, from: nat, m: MessageId, l: LeaseId, retryAt: Instant)
    requires DeferredAt(world, run, from, m, l, retryAt)
    ensures Answers(run, from, m, retryAt) <= Max(0, CeilDiv(retryAt - run[from].now, LONGEST_WAIT_MS) - 1)
  {
    AnswersAreSpread(world, run, from, m, l, retryAt);
    FitsBefore(run[from].now, Answers(run, from, m, retryAt), retryAt);
  }

  lemma FitsBefore(since: Instant, n: nat, retryAt: Instant)
    requires n == 0 || since + n * LONGEST_WAIT_MS < retryAt
    ensures n <= Max(0, CeilDiv(retryAt - since, LONGEST_WAIT_MS) - 1)
  {
    var q := CeilDiv(retryAt - since, LONGEST_WAIT_MS);
    if n > 0 { assert n * LONGEST_WAIT_MS < q * LONGEST_WAIT_MS; }
  }

  /** A deferred report leaves the row deferred until the instant it names. */
  lemma ReportDefers(run: seq<Step>, step: Step, m: MessageId, l: LeaseId, retryAt: Instant)
    requires step.FinishStep? && Defers(Exec(run), step, m, l, retryAt)
    ensures var j, jobs := Exec(run).held[l].body.job.jobId, Apply(Exec(run), step).db.jobs;
      HasJob(jobs, j) && jobs[j.key].status == Deferred && jobs[j.key].deferredUntil == Some(retryAt)
  {
  }
}
