/** The worker loop (apps/worker/src/queue-processor.ts) as one client of the protocol. Between any two of
    its calls the other clients run whatever steps they like, clocks show whatever they show, and any call
    may fail before or after it took effect. Every execution of the loop is a run of the protocol. */
module QueueProcessor {
  import opened Basics
  import opened Identifiers
  import opened Effects
  import opened Store
  import opened Database
  import opened Protocol
  import opened History
  import opened Ordering
  import SyncRun

  datatype Handled =
    | Completed(summary: Option<SyncRun.Summary>)
    | HandlerDeferred(reason: string, retryAt: Instant)
    | HandlerUncertain(reason: string)
    | HandlerThrew(errorClass: ErrorClass, message: string)

  datatype Acceptance = Accept | Defer(retryAfterSeconds: int)

  /** Everything the loop does not decide itself. */
  datatype World = World(
    others: nat -> seq<Step>,
    clock: nat -> Instant,
    faults: nat -> Fault,
    accept: Job -> Acceptance,
    parseError: LeaseId -> string,
    handle: LeaseId -> Handled,
    callError: LeaseId -> (ErrorClass, string),
    workerClock: LeaseId -> Instant)

  /** A call the worker made for a lease and the reply it got, `None` for an exception. */
  datatype Call =
    | ClaimCall(claimed: Option<ClaimAnswer>)
    | FinishCall(input: JobResult, finished: Option<FinishAnswer>)
    | RejectCall(attempts: nat, reason: string, digest: Digest, rejected: bool)

  /** What the worker means to tell the queue about one lease. */
  datatype Line = AckLine | RetryAfter(delaySeconds: Option<int>)

  /** Reasons to acknowledge: the job's row is terminal, or the bad body is on file. */
  predicate Closed(s: System, lease: InboxLease) {
    match lease.body
    case Parsed(job) => job.DedupeKey() in s.db.jobs && Terminal(s.db.jobs[job.DedupeKey()].status)
    case Malformed(_) => ForMessage(lease.id) in s.db.letters
  }

  /** At some point of the run from `from` on, the lease could rightly be acknowledged. */
  ghost predicate Justified(trace: seq<Step>, from: nat, lease: InboxLease) {
    exists n :: from <= n <= |trace| && Closed(Exec(trace[..n]), lease)
  }

  /** The report for a handler's outcome; a thrown error is a failure with the digest of the body. */
  function ReportFor(handled: Handled, body: Body): JobResult {
    match handled
    case Completed(summary) => ReportDone(summary)
    case HandlerDeferred(reason, retryAt) => ReportDeferred(retryAt, reason)
    case HandlerUncertain(reason) => ReportUncertain(reason)
    case HandlerThrew(c, m) => ReportFailed(Some(c), Some(m), Some(Digest(body)))
  }

  /** The report says what the handler came to; an exception is a failure with its class, its text and the body's
      digest. */
  predicate Reports(handled: Handled, body: Body, input: JobResult) {
    match handled
    case Completed(summary) => input.ReportDone? && input.summary == summary
    case HandlerDeferred(reason, retryAt) => input.ReportDeferred? && input.reason == reason && input.retryAt == retryAt
    case HandlerUncertain(reason) => input.ReportUncertain? && input.reason == reason
    case HandlerThrew(c, m) =>
      input.ReportFailed? && input.errorClass == Some(c) && input.errorMessage == Some(m) &&
      input.payloadDigest == Some(Digest(body))
  }

  /** The calls one lease leads to: reject a bad body; nothing if not accepted; else a claim and, if the
      claim is granted, one report of what the handler did, and after a lost report one of failure. */
  predicate ProperCalls(world: World, lease: InboxLease, calls: seq<Call>) {
    if lease.body.Malformed? then
      |calls| == 1 && calls[0].RejectCall? && calls[0].attempts == lease.attempts &&
      calls[0].reason == world.parseError(lease.leaseId) && calls[0].digest == Digest(lease.body)
    else if world.accept(lease.body.job).Defer? then calls == []
    else
      && 1 <= |calls| <= 3 && calls[0].ClaimCall?
      && (|calls| > 1 <==> calls[0].claimed.Some? && calls[0].claimed.value.Claimed?)
      && (|calls| > 1 ==> calls[1].FinishCall? && Reports(world.handle(lease.leaseId), lease.body, calls[1].input))
      && (|calls| > 2 <==> |calls| > 1 && calls[1].finished.None? && !world.handle(lease.leaseId).HandlerThrew?)
      && (|calls| > 2 ==> calls[2].FinishCall? && calls[2].input == ReportFailed(
            Some(world.callError(lease.leaseId).0), Some(world.callError(lease.leaseId).1), Some(Digest(lease.body))))
  }

  /** What the worker tells the queue follows from the last reply. */
  function LineAfter(world: World, lease: InboxLease, calls: seq<Call>): Option<Line> {
    if calls == [] then
      if lease.body.Parsed? && world.accept(lease.body.job).Defer?
      then Some(RetryAfter(Some(world.accept(lease.body.job).retryAfterSeconds))) else None
    else
      match calls[|calls| - 1]
      case RejectCall(_, _, _, ok) => if ok then Some(AckLine) else None
      case ClaimCall(Some(Duplicate)) => Some(AckLine)
      case ClaimCall(Some(Busy)) => Some(RetryAfter(Some(30)))
      case ClaimCall(Some(Waiting(_, retryAt))) =>
        Some(RetryAfter(Some(RetryDelaySeconds(retryAt, world.workerClock(lease.leaseId)))))
      case FinishCall(_, Some(answer)) => Some(LineOf(answer))
      case _ => None
  }

  /** The call threw. */
  predicate Throws(call: Call) {
    match call
    case ClaimCall(claimed) => claimed.None?
    case FinishCall(_, finished) => finished.None?
    case RejectCall(_, _, _, rejected) => !rejected
  }

  /** The last call was a bad body put on file, a claim of a job that is over, or a report that was acknowledged. */
  predicate Acknowledges(calls: seq<Call>) {
    calls != [] &&
    match calls[|calls| - 1]
    case RejectCall(_, _, _, rejected) => rejected
    case ClaimCall(claimed) => claimed == Some(Duplicate)
    case FinishCall(_, finished) => finished == Some(Ack)
  }

  /** The lease is to wait this long: what the acceptance says for a job that is not accepted, 30 seconds for a busy
      one, until `retryAt` for a deferred one, and after a report what the reply says. */
  predicate Waits(world: World, lease: InboxLease, calls: seq<Call>, delaySeconds: Option<int>) {
    if calls == [] then
      lease.body.Parsed? && world.accept(lease.body.job).Defer? &&
      delaySeconds == Some(world.accept(lease.body.job).retryAfterSeconds)
    else
      match calls[|calls| - 1]
      case RejectCall(_, _, _, _) => false
      case ClaimCall(claimed) =>
        claimed.Some? &&
        (if claimed.value.Busy? then delaySeconds == Some(30)
         else claimed.value.Waiting? &&
              delaySeconds == Some(RetryDelaySeconds(claimed.value.retryAt, world.workerClock(lease.leaseId))))
      case FinishCall(_, finished) =>
        finished.Some? && finished.value.Retry? && delaySeconds == Some(finished.value.delaySeconds)
  }

  /** The line follows from the calls, and there is none exactly if the last call threw. */
  ghost predicate Tells(world: World, lease: InboxLease, calls: seq<Call>, line: Option<Line>) {
    && (line.None? <==> calls != [] && Throws(calls[|calls| - 1]))
    && (line == Some(AckLine) <==> Acknowledges(calls))
    && (line.Some? && line.value.RetryAfter? <==> exists d :: Waits(world, lease, calls, d))
    && (line.Some? && line.value.RetryAfter? ==> Waits(world, lease, calls, line.value.delaySeconds))
  }

  lemma LineTells(world: World, lease: InboxLease, calls: seq<Call>)
    requires ProperCalls(world, lease, calls)
    requires forall k :: 0 <= k < |calls| && calls[k].FinishCall? && calls[k].finished.Some? ==>
      calls[k].finished.value.Ack? || calls[k].finished.value.Retry?
    ensures Tells(world, lease, calls, LineAfter(world, lease, calls))
  {
    var line := LineAfter(world, lease, calls);
    if line.Some? && line.value.RetryAfter? { assert Waits(world, lease, calls, line.value.delaySeconds); }
  }

  predicate Holds(s: System, lease: InboxLease) {
    lease.leaseId in s.held && s.held[lease.leaseId] == Holding(lease.id, lease.body)
  }

  lemma {:induction false} HoldingsStay(s: System, steps: seq<Step>, lease: InboxLease)
    requires Holds(s, lease)
    ensures Holds(ExecFrom(s, steps), lease)
    ensures s.decided <= ExecFrom(s, steps).decided
  {
    if steps != [] {
      var n := |steps| - 1;
      HoldingsStay(s, steps[..n], lease);
      HoldingStays(ExecFrom(s, steps[..n]), steps[n], lease);
    }
  }

  lemma HoldingStays(s: System, step: Step, lease: InboxLease)
    requires Holds(s, lease)
    ensures Holds(Apply(s, step), lease) && s.decided <= Apply(s, step).decided
  {
    if step.PullStep? && Enabled(s, step) { HoldRows(s.held, s.db.inbox, step.hands); }
  }

  lemma JustifiedStays(trace: seq<Step>, more: seq<Step>, from: nat, lease: InboxLease)
    requires Justified(trace, from, lease)
    ensures Justified(trace + more, from, lease)
  {
    var n :| from <= n <= |trace| && Closed(Exec(trace[..n]), lease);
    assert (trace + more)[..n] == trace[..n];
  }

  lemma JustifiedNow(trace: seq<Step>, from: nat, lease: InboxLease)
    requires from <= |trace| && Closed(Exec(trace), lease)
    ensures Justified(trace, from, lease)
  {
    assert trace[..|trace|] == trace;
  }

  ghost predicate AllHeld(s: System, batch: seq<InboxLease>) {
    forall k :: 0 <= k < |batch| ==> Holds(s, batch[k])
  }

  /** Lease ids drawn at random: no two alike, and none handed out so far. */
  ghost predicate Fresh(s: System, uuid: nat -> LeaseId) {
    (forall i: nat, j: nat :: i < j ==> uuid(i) != uuid(j)) && forall i: nat :: uuid(i) !in s.held
  }

  ghost predicate NeverDraws(step: Step, uuid: nat -> LeaseId) {
    step.PullStep? ==> forall h, i: nat :: h in step.hands ==> h.leaseId != uuid(i)
  }

  ghost predicate NeverHandedOut(world: World, uuid: nat -> LeaseId) {
    forall n, step :: step in world.others(n) ==> NeverDraws(step, uuid)
  }

  lemma {:induction false} StaysFresh(s: System, steps: seq<Step>, uuid: nat -> LeaseId)
    requires Fresh(s, uuid) && forall step :: step in steps ==> NeverDraws(step, uuid)
    ensures Fresh(ExecFrom(s, steps), uuid)
  {
    if steps != [] {
      var n := |steps| - 1;
      StaysFresh(s, steps[..n], uuid);
      var t, step := ExecFrom(s, steps[..n]), steps[n];
      assert NeverDraws(step, uuid);
      if step.PullStep? && Enabled(t, step) { HoldRows(t.held, t.db.inbox, step.hands); }
    }
  }

  /** What `pull` returned: the due lines first in order, each under the next fresh lease id. */
  ghost predicate HandedOut(before: Inbox, after: Inbox, messages: seq<InboxLease>, collate: Collation,
                            locked: set<MessageId>, batchSize: nat, visibilityMs: int, uuid: nat -> LeaseId,
                            now: Instant) {
    var due := ReclaimExpired(before, now);
    && FirstInOrder(QueueOrder(due, collate), Candidates(due, locked, now), batchSize, Ids(messages))
    && forall i :: 0 <= i < |messages| ==> LeasedAs(messages[i], before, after, uuid(i), now + visibilityMs)
  }

  lemma HandsAreEnabled(s: System, after: Inbox, messages: seq<InboxLease>, collate: Collation, locked: set<MessageId>,
                        batchSize: nat, visibilityMs: int, uuid: nat -> LeaseId, now: Instant)
    requires Fresh(s, uuid) && StrictTotal(collate)
    requires HandedOut(s.db.inbox, after, messages, collate, locked, batchSize, visibilityMs, uuid, now)
    ensures Enabled(s, PullStep(HandsOf(messages), visibilityMs, now))
  {
    var due, hands := ReclaimExpired(s.db.inbox, now), HandsOf(messages);
    QueueOrderTotal(due, collate, Candidates(due, locked, now));
    NoRepeats(QueueOrder(due, collate), Candidates(due, locked, now), Ids(messages));
    forall i, j | 0 <= i < j < |hands|
      ensures hands[i].message != hands[j].message && hands[i].leaseId != hands[j].leaseId
    {
      assert Ids(messages)[i] != Ids(messages)[j];
      assert messages[i].leaseId == uuid(i) && messages[j].leaseId == uuid(j);
    }
    forall h | h in hands ensures h.leaseId !in s.held && Eligible(due, h.message, now) {
      var i :| 0 <= i < |hands| && hands[i] == h;
      assert Ids(messages)[i] in Candidates(due, locked, now) && messages[i].leaseId == uuid(i);
    }
  }

  lemma HandsAreHeld(s: System, after: Inbox, messages: seq<InboxLease>, uuid: nat -> LeaseId, until: Instant)
    requires DistinctHands(HandsOf(messages))
    requires forall h :: h in HandsOf(messages) ==> h.message in s.db.inbox && h.leaseId !in s.held
    requires forall i :: 0 <= i < |messages| ==> LeasedAs(messages[i], s.db.inbox, after, uuid(i), until)
    ensures var held := Hold(s.held, s.db.inbox, HandsOf(messages));
      forall k :: 0 <= k < |messages| ==>
        (messages[k].leaseId in held && held[messages[k].leaseId] == Holding(messages[k].id, messages[k].body) &&
         Current(after, messages[k].leaseId))
  {
    var hands := HandsOf(messages);
    HoldRows(s.held, s.db.inbox, hands);
    forall k | 0 <= k < |messages|
      ensures hands[k] in hands && Current(after, messages[k].leaseId)
    {
      assert LeasedAs(messages[k], s.db.inbox, after, uuid(k), until);
      assert HeldBy(after[messages[k].id], messages[k].leaseId);
    }
  }

  /** What the database hands out is a step of the protocol: due messages, each once, under fresh lease ids. The
      worker holds every line it was given, and its lease is in force. */
  lemma PullIsStep(s: System, after: Inbox, messages: seq<InboxLease>, collate: Collation, locked: set<MessageId>,
                   batchSize: nat, visibilityMs: int, uuid: nat -> LeaseId, now: Instant)
    requires Fresh(s, uuid) && StrictTotal(collate)
    requires after == Store.Pull(s.db.inbox, HandsOf(messages), visibilityMs, now)
    requires HandedOut(s.db.inbox, after, messages, collate, locked, batchSize, visibilityMs, uuid, now)
    ensures var step := PullStep(HandsOf(messages), visibilityMs, now);
      && Enabled(s, step) && Apply(s, step).db == s.db.(inbox := after)
      && AllHeld(Apply(s, step), messages)
    ensures Distinct(LeaseIds(messages)) && |messages| <= batchSize
    ensures forall k :: 0 <= k < |messages| ==> Current(after, messages[k].leaseId)
  {
    HandsAreEnabled(s, after, messages, collate, locked, batchSize, visibilityMs, uuid, now);
    HandsAreHeld(s, after, messages, uuid, now + visibilityMs);
    assert forall k :: 0 <= k < |messages| ==> messages[k].leaseId == HandsOf(messages)[k].leaseId;
  }

  /** Reporting the job of a lease the worker holds is a step, and it is answered "ack" only if the job is over. */
  lemma FinishIsStep(s: System, lease: InboxLease, input: JobResult, now: Instant)
    requires Holds(s, lease) && lease.body.Parsed?
    ensures var t, j := Apply(s, FinishStep(lease.leaseId, input, now)), lease.body.job.jobId;
      && t.db == Store.FinishJob(s.db, j, input, now)
      && Holds(t, lease) && s.decided <= t.decided
      && (FinishAnswerFor(s.db, j, input, now) == Ack ==> lease.leaseId in t.decided && Closed(t, lease))
  {
    AckMeansTerminal(s.db, lease.body.job.jobId, input, now);
  }

  /** The last step of the run is the pull that handed the batch out: the due messages first in order. */
  ghost predicate Pulled(trace: seq<Step>, batch: seq<InboxLease>, visibilityMs: int, collate: Collation,
                         locked: set<MessageId>, batchSize: nat)
    requires trace != []
  {
    var step, inbox := trace[|trace| - 1], Exec(trace[..|trace| - 1]).db.inbox;
    step.PullStep? && step.hands == HandsOf(batch) && step.visibilityMs == visibilityMs &&
    var due := ReclaimExpired(inbox, step.now);
    FirstInOrder(QueueOrder(due, collate), Candidates(due, locked, step.now), batchSize, Ids(batch))
  }

  /** The reply is the one the control plane gave in the last step of the run. */
  predicate ClaimReplied(trace: seq<Step>, lease: InboxLease, answer: ClaimAnswer)
    requires trace != [] && lease.body.Parsed?
  {
    var step := trace[|trace| - 1];
    step.ClaimStep? && step.lease == lease.leaseId &&
    answer == ClaimAnswerFor(Exec(trace[..|trace| - 1]).db.jobs, lease.body.job, step.now)
  }

  predicate FinishReplied(trace: seq<Step>, lease: InboxLease, input: JobResult, answer: Option<FinishAnswer>)
    requires trace != [] && lease.body.Parsed?
  {
    var step := trace[|trace| - 1];
    step.FinishStep? && step.lease == lease.leaseId && step.input == input &&
    var reply := FinishAnswerFor(Exec(trace[..|trace| - 1]).db, lease.body.job.jobId, input, step.now);
    if reply == JobNotFound || reply == DigestRequired then answer.None? else answer == Some(reply)
  }

  predicate Settles(step: Step, acks: seq<LeaseId>, retries: seq<RetryLine>) {
    step.SettleStep? && step.acks == acks && step.retries == retries
  }

  class Service {
    const store: Database
    const world: World
    var system: System
    var calls: nat
    ghost var trace: seq<Step>
    ghost var log: seq<Call>

    /** The tables are those of the run so far. */
    ghost predicate Valid()
      reads this, store
    {
      system == Exec(trace) && store.Snapshot() == system.db
    }

    constructor (world: World)
      ensures Valid() && trace == [] && log == [] && this.world == world && fresh(store)
    {
      this.world := world;
      store := new Database();
      system, calls, trace, log := START, 0, [], [];
    }

    /** The other clients' turn, and the time it is afterwards. */
    method Interfere() returns (now: Instant, fault: Fault)
      requires Valid()
      modifies this, store
      ensures Valid() && trace == old(trace) + world.others(old(calls))
      ensures system == ExecFrom(old(system), world.others(old(calls))) && log == old(log)
      ensures calls == old(calls) + 1 && fault == world.faults(old(calls))
    {
      ExecConcat(trace, world.others(calls));
      system := ExecFrom(system, world.others(calls));
      store.Refresh(system.db);
      trace := trace + world.others(calls);
      now, fault := world.clock(calls), world.faults(calls);
      calls := calls + 1;
    }

    /** Record the step this client just took. */
    method Took(step: Step)
      requires system == Exec(trace) && store.Snapshot() == Apply(system, step).db
      modifies this
      ensures Valid() && trace == old(trace) + [step] && system == Apply(old(system), step) && log == old(log)
      ensures calls == old(calls)
    {
      assert (trace + [step])[..|trace|] == trace;
      system := Apply(system, step);
      trace := trace + [step];
    }

    /** A batch from the queue: `pull` as a step of the run. `None` when the call throws. */
    method PullBatch(batchSize: nat, visibilityMs: int, collate: Collation, locked: set<MessageId>,
                     uuid: nat -> LeaseId)
      returns (batch: Option<seq<InboxLease>>)
      requires Valid() && StrictTotal(collate) && Fresh(system, uuid) && NeverHandedOut(world, uuid)
      modifies this, store
      ensures Valid() && old(trace) <= trace && log == old(log) && calls == old(calls) + 1
      ensures batch.None? <==> world.faults(old(calls)) != Fine
      ensures batch.Some? ==>
        |trace| > |old(trace)| && Pulled(trace, batch.value, visibilityMs, collate, locked, batchSize)
      ensures batch.Some? ==>
        |batch.value| <= batchSize && Distinct(LeaseIds(batch.value)) && AllHeld(system, batch.value) &&
        forall k :: 0 <= k < |batch.value| ==> Current(system.db.inbox, batch.value[k].leaseId)
    {
      var now, fault := Interfere();
      StaysFresh(old(system), world.others(old(calls)), uuid);
      if fault == LostRequest { return None; }
      ghost var s := system;
      var messages, backlog := store.Pull(batchSize, visibilityMs, collate, locked, uuid, now);
      PullIsStep(s, store.Snapshot().inbox, messages, collate, locked, batchSize, visibilityMs, uuid, now);
      Took(PullStep(HandsOf(messages), visibilityMs, now));
      assert trace[..|trace| - 1] == old(trace) + world.others(old(calls));
      batch := if fault == LostReply then None else Some(messages);
    }

    method ClaimJob(lease: InboxLease, ghost from: nat) returns (answer: Option<ClaimAnswer>)
      requires Valid() && Holds(system, lease) && lease.body.Parsed? && from <= |trace|
      modifies this, store
      ensures Valid() && Holds(system, lease) && old(trace) <= trace && old(system).decided <= system.decided
      ensures log == old(log) + [ClaimCall(answer)] && calls == old(calls) + 1
      ensures answer.None? <==> world.faults(old(calls)) != Fine
      ensures answer.Some? ==> |trace| > |old(trace)| && ClaimReplied(trace, lease, answer.value)
      ensures answer == Some(Duplicate) ==> lease.leaseId in system.decided && Justified(trace, from, lease)
    {
      var now, fault := Interfere();
      HoldingsStay(old(system), world.others(old(calls)), lease);
      answer := None;
      if fault != LostRequest {
        var reply := store.ClaimJob(lease.body.job, now);
        HoldingStays(system, ClaimStep(lease.leaseId, now), lease);
        Took(ClaimStep(lease.leaseId, now));
        assert trace[..|trace| - 1] == old(trace) + world.others(old(calls));
        if reply == Duplicate { JustifiedNow(trace, from, lease); }
        answer := if fault == LostReply then None else Some(reply);
      }
      log := log + [ClaimCall(answer)];
    }

    /** `None` when the call throws: a lost message, no row for the job id, or no digest. */
    method FinishJob(lease: InboxLease, input: JobResult, ghost from: nat) returns (answer: Option<FinishAnswer>)
      requires Valid() && Holds(system, lease) && lease.body.Parsed? && from <= |trace|
      modifies this, store
      ensures Valid() && Holds(system, lease) && old(trace) <= trace && old(system).decided <= system.decided
      ensures log == old(log) + [FinishCall(input, answer)] && calls == old(calls) + 1
      ensures world.faults(old(calls)) != Fine ==> answer.None?
      ensures world.faults(old(calls)) == Fine ==> |trace| > |old(trace)| && FinishReplied(trace, lease, input, answer)
      ensures answer.Some? ==> answer.value.Ack? || answer.value.Retry?
      ensures answer == Some(Ack) ==> lease.leaseId in system.decided && Justified(trace, from, lease)
    {
      var now, fault := Interfere();
      HoldingsStay(old(system), world.others(old(calls)), lease);
      answer := None;
      if fault != LostRequest {
        FinishIsStep(system, lease, input, now);
        var reply := store.FinishJob(lease.body.job.jobId, input, now);
        Took(FinishStep(lease.leaseId, input, now));
        assert trace[..|trace| - 1] == old(trace) + world.others(old(calls));
        if reply == Ack { JustifiedNow(trace, from, lease); }
        answer := if fault == LostReply || reply == JobNotFound || reply == DigestRequired then None else Some(reply);
      }
      log := log + [FinishCall(input, answer)];
    }

    method RejectInvalidJob(lease: InboxLease, reason: string, ghost from: nat) returns (ok: bool)
      requires Valid() && Holds(system, lease) && lease.body.Malformed? && from <= |trace|
      modifies this, store
      ensures Valid() && Holds(system, lease) && old(trace) <= trace && old(system).decided <= system.decided
      ensures log == old(log) + [RejectCall(lease.attempts, reason, Digest(lease.body), ok)]
      ensures calls == old(calls) + 1 && (ok <==> world.faults(old(calls)) == Fine)
      ensures ok ==> lease.leaseId in system.decided && Justified(trace, from, lease)
    {
      var now, fault := Interfere();
      HoldingsStay(old(system), world.others(old(calls)), lease);
      ok := fault == Fine;
      if fault != LostRequest {
        store.RejectInvalidJob(lease.id, lease.attempts, reason, Digest(lease.body), now);
        HoldingStays(system, RejectStep(lease.leaseId, lease.attempts, reason, now), lease);
        Took(RejectStep(lease.leaseId, lease.attempts, reason, now));
        JustifiedNow(trace, from, lease);
      }
      log := log + [RejectCall(lease.attempts, reason, Digest(lease.body), ok)];
    }

    method SettleLeases(acks: seq<LeaseId>, retries: seq<RetryLine>) returns (ok: bool)
      requires Valid()
      requires forall l :: l in acks ==> l in system.decided
      requires forall r :: r in retries ==> r.leaseId !in acks
      requires exists lease :: Holds(system, lease)
      modifies this, store
      ensures Valid() && old(trace) <= trace && log == old(log) && calls == old(calls) + 1
      ensures ok <==> world.faults(old(calls)) == Fine
      ensures ok ==> |trace| > |old(trace)| && Settles(trace[|trace| - 1], acks, retries)
      ensures ok ==> forall l :: l in acks || (exists r :: r in retries && r.leaseId == l) ==>
        !Current(system.db.inbox, l)
    {
      ghost var lease :| Holds(system, lease);
      var now, fault := Interfere();
      HoldingsStay(old(system), world.others(old(calls)), lease);
      if fault == LostRequest { return false; }
      ghost var inbox := system.db.inbox;
      var settled := store.Settle(acks, retries, now);
      Took(SettleStep(acks, retries, now));
      SettlementEnds(inbox, acks, retries, now);
      return fault == Fine;
    }
  }

  /** A settled lease is no longer in force. */
  lemma SettlementEnds(inbox: Inbox, acks: seq<LeaseId>, retries: seq<RetryLine>, now: Instant)
    ensures forall l :: l in acks || (exists r :: r in retries && r.leaseId == l) ==>
      !Current(Store.Settle(inbox, acks, retries, now), l)
  {
    forall l | exists r :: r in retries && r.leaseId == l ensures !Current(Store.Settle(inbox, acks, retries, now), l) {
      NoLineNoDelay(retries, l);
    }
  }

  /** What the loop promises of the calls it made for a lease, of which the log had `start` before. */
  ghost predicate Processed(world: World, lease: InboxLease, start: seq<Call>, log: seq<Call>, line: Option<Line>) {
    start <= log &&
    var calls := log[|start|..];
    && ProperCalls(world, lease, calls) && line == LineAfter(world, lease, calls)
    && Tells(world, lease, calls, line)
  }

  /** No report is made unless the job is accepted and its claim granted. */
  lemma UnclaimedCalls(world: World, lease: InboxLease, start: seq<Call>, calls: seq<Call>, line: Option<Line>)
    requires ProperCalls(world, lease, calls) && line == LineAfter(world, lease, calls) && |calls| <= 1
    ensures Processed(world, lease, start, start + calls, line)
  {
    assert (start + calls)[|start|..] == calls;
    LineTells(world, lease, calls);
  }

  lemma HandledCalls(world: World, lease: InboxLease, start: seq<Call>, claim: Option<ClaimAnswer>, before: seq<Call>,
                     after: seq<Call>, line: Option<Line>)
    requires lease.body.Parsed? && world.accept(lease.body.job).Accept? && claim.Some? && claim.value.Claimed?
    requires before == start + [ClaimCall(claim)] && Reported(world, lease, before, after, line)
    ensures Processed(world, lease, start, after, line)
  {
    var calls, reports := after[|start|..], after[|before|..];
    assert calls == [ClaimCall(claim)] + reports;
    LineTells(world, lease, calls);
  }

  /** One lease. `None` when an exception leaves the whole batch unsettled. */
  method ProcessLease(service: Service, lease: InboxLease, ghost from: nat) returns (line: Option<Line>)
    requires service.Valid() && Holds(service.system, lease) && from <= |service.trace|
    modifies service, service.store
    ensures service.Valid() && Holds(service.system, lease) && old(service.trace) <= service.trace
    ensures old(service.system).decided <= service.system.decided
    ensures line == Some(AckLine) ==> lease.leaseId in service.system.decided && Justified(service.trace, from, lease)
    ensures Processed(service.world, lease, old(service.log), service.log, line)
  {
    ghost var start := service.log;
    match lease.body {
      case Malformed(_) =>
        var ok := service.RejectInvalidJob(lease, service.world.parseError(lease.leaseId), from);
        line := if ok then Some(AckLine) else None;
        UnclaimedCalls(service.world, lease, start, [service.log[|start|]], line);
      case Parsed(job) =>
        var acceptance := service.world.accept(job);
        if acceptance.Defer? {
          line := Some(RetryAfter(Some(acceptance.retryAfterSeconds)));
          UnclaimedCalls(service.world, lease, start, [], line);
          assert start + [] == start;
          return;
        }
        line := ProcessJob(service, lease, from);
    }
  }

  /** An accepted job: what the answer to the claim leads to. */
  method ProcessJob(service: Service, lease: InboxLease, ghost from: nat) returns (line: Option<Line>)
    requires service.Valid() && Holds(service.system, lease) && from <= |service.trace|
    requires lease.body.Parsed? && service.world.accept(lease.body.job).Accept?
    modifies service, service.store
    ensures service.Valid() && Holds(service.system, lease) && old(service.trace) <= service.trace
    ensures old(service.system).decided <= service.system.decided
    ensures line == Some(AckLine) ==> lease.leaseId in service.system.decided && Justified(service.trace, from, lease)
    ensures Processed(service.world, lease, old(service.log), service.log, line)
  {
    ghost var start := service.log;
    var claim := service.ClaimJob(lease, from);
    match claim {
      case None => line := None;
      case Some(Duplicate) => line := Some(AckLine);
      case Some(Busy) => line := Some(RetryAfter(Some(30)));
      case Some(Waiting(_, retryAt)) =>
        line := Some(RetryAfter(Some(RetryDelaySeconds(retryAt, service.world.workerClock(lease.leaseId)))));
      case Some(Claimed(_)) =>
        ghost var log := service.log;
        line := RunHandler(service, lease, from);
        HandledCalls(service.world, lease, start, claim, log, service.log, line);
        return;
    }
    UnclaimedCalls(service.world, lease, start, [ClaimCall(claim)], line);
  }

  /** One report of what the handler did, and after a lost report one of failure. */
  predicate HandlerCalls(world: World, lease: InboxLease, calls: seq<Call>) {
    var handled := world.handle(lease.leaseId);
    && 1 <= |calls| <= 2 && (forall k :: 0 <= k < |calls| ==> IsReport(calls[k]))
    && Reports(handled, lease.body, calls[0].input)
    && (|calls| == 2 <==> calls[0].finished.None? && !handled.HandlerThrew?)
    && (|calls| == 2 ==> calls[1].input == ReportFailed(
          Some(world.callError(lease.leaseId).0), Some(world.callError(lease.leaseId).1), Some(Digest(lease.body))))
  }

  /** A report and its reply: an acknowledgement, a retry, or an exception. */
  predicate IsReport(call: Call) {
    call.FinishCall? && (call.finished.Some? ==> call.finished.value.Ack? || call.finished.value.Retry?)
  }

  ghost predicate Reported(world: World, lease: InboxLease, start: seq<Call>, log: seq<Call>, line: Option<Line>) {
    start <= log &&
    var calls := log[|start|..];
    HandlerCalls(world, lease, calls) && HandlerLine(calls[|calls| - 1], line)
  }

  lemma ReportedCalls(world: World, lease: InboxLease, start: seq<Call>, calls: seq<Call>, line: Option<Line>)
    requires HandlerCalls(world, lease, calls) && HandlerLine(calls[|calls| - 1], line)
    ensures Reported(world, lease, start, start + calls, line)
  {
    assert (start + calls)[|start|..] == calls;
  }

  predicate HandlerLine(last: Call, line: Option<Line>) {
    last.FinishCall? &&
    match last.finished
    case None => line.None?
    case Some(Ack) => line == Some(AckLine)
    case Some(Retry(delaySeconds)) => line == Some(RetryAfter(Some(delaySeconds)))
    case _ => false
  }

  /** The claim was granted: run the handler and report. Whatever goes wrong is caught and reported as a
      failure; if that report throws too, the exception leaves the loop. */
  method RunHandler(service: Service, lease: InboxLease, ghost from: nat) returns (line: Option<Line>)
    requires service.Valid() && Holds(service.system, lease) && lease.body.Parsed? && from <= |service.trace|
    modifies service, service.store
    ensures service.Valid() && Holds(service.system, lease) && old(service.trace) <= service.trace
    ensures old(service.system).decided <= service.system.decided
    ensures line == Some(AckLine) ==> lease.leaseId in service.system.decided && Justified(service.trace, from, lease)
    ensures Reported(service.world, lease, old(service.log), service.log, line)
  {
    ghost var start := service.log;
    var handled := service.world.handle(lease.leaseId);
    var errorClass, message := service.world.callError(lease.leaseId).0, service.world.callError(lease.leaseId).1;
    ghost var before: seq<Call> := [];
    if handled.HandlerThrew? {
      errorClass, message := handled.errorClass, handled.message;
    } else {
      var first := service.FinishJob(lease, ReportFor(handled, lease.body), from);
      before := [FinishCall(ReportFor(handled, lease.body), first)];
      if first.Some? {
        line := Some(LineOf(first.value));
        ReportedCalls(service.world, lease, start, before, line);
        return;
      }
    }
    var failure := ReportFailed(Some(errorClass), Some(message), Some(Digest(lease.body)));
    var result := service.FinishJob(lease, failure, from);
    line := if result.Some? then Some(LineOf(result.value)) else None;
    assert start + before + [FinishCall(failure, result)] == start + (before + [FinishCall(failure, result)]);
    ReportedCalls(service.world, lease, start, before + [FinishCall(failure, result)], line);
  }

  /** `appendSettlement`. */
  function LineOf(answer: FinishAnswer): Line {
    if answer.Retry? then RetryAfter(Some(answer.delaySeconds)) else AckLine
  }

  function LeaseIds(batch: seq<InboxLease>): (ids: seq<LeaseId>)
    ensures |ids| == |batch| && forall i :: 0 <= i < |batch| ==> ids[i] == batch[i].leaseId
  {
    seq(|batch|, i requires 0 <= i < |batch| => batch[i].leaseId)
  }

  function RetryIds(retries: seq<RetryLine>): (ids: seq<LeaseId>)
    ensures |ids| == |retries| && forall i :: 0 <= i < |retries| ==> ids[i] == retries[i].leaseId
  {
    seq(|retries|, i requires 0 <= i < |retries| => retries[i].leaseId)
  }

  /** Acks and retries between them name every lease of the batch once. */
  predicate Partition(batch: seq<InboxLease>, acks: seq<LeaseId>, retries: seq<RetryLine>) {
    multiset(acks) + multiset(RetryIds(retries)) == multiset(LeaseIds(batch))
  }

  lemma PartitionIsDisjoint(batch: seq<InboxLease>, acks: seq<LeaseId>, retries: seq<RetryLine>)
    requires Distinct(LeaseIds(batch)) && Partition(batch, acks, retries)
    ensures forall r :: r in retries ==> r.leaseId !in acks
  {
    AtMostOnce(LeaseIds(batch));
    forall r | r in retries ensures r.leaseId !in acks {
      var i :| 0 <= i < |retries| && retries[i] == r;
      assert RetryIds(retries)[i] == r.leaseId;
      assert multiset(LeaseIds(batch))[r.leaseId] <= 1;
    }
  }

  lemma {:induction false} AtMostOnce(ids: seq<LeaseId>)
    requires Distinct(ids)
    ensures forall l :: multiset(ids)[l] <= 1
  {
    if ids != [] {
      var n := |ids| - 1;
      assert ids == ids[..n] + [ids[n]];
      AtMostOnce(ids[..n]);
      assert ids[n] !in ids[..n];
    }
  }

  ghost predicate AcksJustified(trace: seq<Step>, from: nat, batch: seq<InboxLease>, acks: seq<LeaseId>) {
    forall k :: 0 <= k < |batch| && batch[k].leaseId in acks ==> Justified(trace, from, batch[k])
  }

  /** Nothing is lost while the run goes on. */
  lemma RunGoesOn(trace: seq<Step>, later: seq<Step>, from: nat, batch: seq<InboxLease>, acks: seq<LeaseId>)
    requires trace <= later && AllHeld(Exec(trace), batch) && AcksJustified(trace, from, batch, acks)
    ensures AllHeld(Exec(later), batch) && AcksJustified(later, from, batch, acks)
  {
    var more := later[|trace|..];
    assert later == trace + more;
    ExecConcat(trace, more);
    forall k | 0 <= k < |batch| ensures Holds(Exec(later), batch[k]) {
      HoldingsStay(Exec(trace), more, batch[k]);
    }
    forall k | 0 <= k < |batch| && batch[k].leaseId in acks ensures Justified(later, from, batch[k]) {
      JustifiedStays(trace, more, from, batch[k]);
    }
  }

  /** The settlement says of a lease what the calls made for it lead to. */
  ghost predicate LeaseSettled(world: World, lease: InboxLease, calls: seq<Call>, acks: seq<LeaseId>,
                               retries: seq<RetryLine>) {
    && ProperCalls(world, lease, calls)
    && (lease.leaseId in acks <==> Acknowledges(calls))
    && (lease.leaseId !in acks ==>
          exists d :: RetryLine(lease.leaseId, d) in retries && Waits(world, lease, calls, d))
    && (forall r :: r in retries && r.leaseId == lease.leaseId ==> Waits(world, lease, calls, r.delaySeconds))
  }

  /** `made[k]` are the calls made for lease number `k`. */
  ghost predicate AllSettled(world: World, batch: seq<InboxLease>, made: seq<seq<Call>>, acks: seq<LeaseId>,
                             retries: seq<RetryLine>) {
    |made| <= |batch| &&
    (made == [] ||
     var n := |made| - 1;
     AllSettled(world, batch, made[..n], acks, retries) && LeaseSettled(world, batch[n], made[n], acks, retries))
  }

  function Joined(made: seq<seq<Call>>): seq<Call> {
    if made == [] then [] else Joined(made[..|made| - 1]) + made[|made| - 1]
  }

  /** How far the loop has got in run `trace`: the first `i` leases each have one line, and every acknowledgement is
      justified. */
  ghost predicate Progress(batch: seq<InboxLease>, i: nat, trace: seq<Step>, acks: seq<LeaseId>,
                           retries: seq<RetryLine>, from: nat) {
    && i <= |batch| && AllHeld(Exec(trace), batch) && Partition(batch[..i], acks, retries)
    && (forall l :: l in acks ==> l in Exec(trace).decided)
    && AcksJustified(trace, from, batch, acks)
  }

  /** And each line is the one the calls logged for the lease lead to. */
  ghost predicate Recorded(world: World, batch: seq<InboxLease>, i: nat, acks: seq<LeaseId>, retries: seq<RetryLine>,
                           start: seq<Call>, log: seq<Call>, made: seq<seq<Call>>) {
    |made| == i && log == start + Joined(made) && AllSettled(world, batch, made, acks, retries)
  }

  function AcksWith(acks: seq<LeaseId>, l: LeaseId, line: Line): seq<LeaseId> {
    if line.AckLine? then acks + [l] else acks
  }

  function RetriesWith(retries: seq<RetryLine>, l: LeaseId, line: Line): seq<RetryLine> {
    if line.AckLine? then retries else retries + [RetryLine(l, line.delaySeconds)]
  }

  lemma ProgressOneMore(batch: seq<InboxLease>, i: nat, trace: seq<Step>, later: seq<Step>, acks: seq<LeaseId>,
                        retries: seq<RetryLine>, from: nat, line: Line)
    requires Progress(batch, i, trace, acks, retries, from) && i < |batch| && Distinct(LeaseIds(batch))
    requires trace <= later && from <= |trace| && Exec(trace).decided <= Exec(later).decided
    requires line.AckLine? ==> batch[i].leaseId in Exec(later).decided && Justified(later, from, batch[i])
    ensures var l := batch[i].leaseId;
      Progress(batch, i + 1, later, AcksWith(acks, l, line), RetriesWith(retries, l, line), from)
  {
    RunGoesOn(trace, later, from, batch, acks);
    LineAdded(batch, i, acks, retries, line);
    if line.AckLine? { AckAdded(later, from, batch, i, acks); }
  }

  lemma RecordedOneMore(world: World, batch: seq<InboxLease>, i: nat, acks: seq<LeaseId>, retries: seq<RetryLine>,
                        start: seq<Call>, log: seq<Call>, after: seq<Call>, made: seq<seq<Call>>, line: Line)
    requires Recorded(world, batch, i, acks, retries, start, log, made) && i < |batch| && Distinct(LeaseIds(batch))
    requires Partition(batch[..i], acks, retries) && Processed(world, batch[i], log, after, Some(line))
    ensures var l := batch[i].leaseId;
      Recorded(world, batch, i + 1, AcksWith(acks, l, line), RetriesWith(retries, l, line), start, after,
               made + [after[|log|..]])
  {
    var calls := after[|log|..];
    SettledOneMore(world, batch, made, calls, acks, retries, line);
    JoinedOneMore(start, log, after, made);
  }

  lemma JoinedOneMore(start: seq<Call>, log: seq<Call>, after: seq<Call>, made: seq<seq<Call>>)
    requires log == start + Joined(made) && log <= after
    ensures after == start + Joined(made + [after[|log|..]])
  {
    var calls := after[|log|..];
    assert (made + [calls])[..|made|] == made;
    assert after == log + calls;
    assert start + (Joined(made) + calls) == start + Joined(made) + calls;
  }

  /** A line for one more lease changes nothing for those before it. */
  lemma SettledOneMore(world: World, batch: seq<InboxLease>, made: seq<seq<Call>>, calls: seq<Call>, acks: seq<LeaseId>,
                       retries: seq<RetryLine>, line: Line)
    requires |made| < |batch| && Distinct(LeaseIds(batch)) && Partition(batch[..|made|], acks, retries)
    requires AllSettled(world, batch, made, acks, retries)
    requires ProperCalls(world, batch[|made|], calls) && Tells(world, batch[|made|], calls, Some(line))
    ensures var l := batch[|made|].leaseId;
      AllSettled(world, batch, made + [calls], AcksWith(acks, l, line), RetriesWith(retries, l, line))
  {
    var i, l := |made|, batch[|made|].leaseId;
    NotNamedYet(batch, i, acks, retries);
    AllStillSettled(world, batch, made, acks, retries, l, line);
    NowSettled(world, batch[i], calls, acks, retries, line);
    assert (made + [calls])[..i] == made;
  }

  lemma {:induction false} AllStillSettled(world: World, batch: seq<InboxLease>, made: seq<seq<Call>>,
                                           acks: seq<LeaseId>, retries: seq<RetryLine>, l: LeaseId, line: Line)
    requires AllSettled(world, batch, made, acks, retries) && Distinct(LeaseIds(batch))
    requires |made| < |batch| && exists i :: |made| <= i < |batch| && batch[i].leaseId == l
    ensures AllSettled(world, batch, made, AcksWith(acks, l, line), RetriesWith(retries, l, line))
  {
    if made != [] {
      var n := |made| - 1;
      var i :| |made| <= i < |batch| && batch[i].leaseId == l;
      OnlyThisLease(batch, i);
      AllStillSettled(world, batch, made[..n], acks, retries, l, line);
      StillSettled(world, batch[n], made[n], acks, retries, l, line);
    }
  }

  lemma StillSettled(world: World, lease: InboxLease, calls: seq<Call>, acks: seq<LeaseId>, retries: seq<RetryLine>,
                     l: LeaseId, line: Line)
    requires LeaseSettled(world, lease, calls, acks, retries) && lease.leaseId != l
    ensures LeaseSettled(world, lease, calls, AcksWith(acks, l, line), RetriesWith(retries, l, line))
  {
    if lease.leaseId !in acks {
      var d :| RetryLine(lease.leaseId, d) in retries && Waits(world, lease, calls, d);
      assert RetryLine(lease.leaseId, d) in RetriesWith(retries, l, line);
    }
  }

  lemma NowSettled(world: World, lease: InboxLease, calls: seq<Call>, acks: seq<LeaseId>, retries: seq<RetryLine>,
                   line: Line)
    requires ProperCalls(world, lease, calls) && Tells(world, lease, calls, Some(line))
    requires lease.leaseId !in acks && forall r :: r in retries ==> r.leaseId != lease.leaseId
    ensures LeaseSettled(world, lease, calls, AcksWith(acks, lease.leaseId, line),
                         RetriesWith(retries, lease.leaseId, line))
  {
    if line.RetryAfter? {
      assert RetryLine(lease.leaseId, line.delaySeconds) in RetriesWith(retries, lease.leaseId, line);
    }
  }

  lemma NotNamedYet(batch: seq<InboxLease>, i: nat, acks: seq<LeaseId>, retries: seq<RetryLine>)
    requires i < |batch| && Distinct(LeaseIds(batch)) && Partition(batch[..i], acks, retries)
    ensures batch[i].leaseId !in acks && forall r :: r in retries ==> r.leaseId != batch[i].leaseId
  {
    var l, ids := batch[i].leaseId, LeaseIds(batch[..i]);
    forall k | 0 <= k < i ensures ids[k] != l { assert LeaseIds(batch)[k] != LeaseIds(batch)[i]; }
    assert l !in multiset(ids);
    forall r | r in retries ensures r.leaseId != l {
      var k :| 0 <= k < |retries| && retries[k] == r;
      assert RetryIds(retries)[k] == r.leaseId;
      assert r.leaseId in multiset(RetryIds(retries));
    }
  }

  /** The loop over the batch, up to the call that settles. */
  method DecideBatch(service: Service, batch: seq<InboxLease>)
    returns (normal: bool, acks: seq<LeaseId>, retries: seq<RetryLine>, ghost made: seq<seq<Call>>)
    requires service.Valid() && Distinct(LeaseIds(batch)) && AllHeld(service.system, batch)
    modifies service, service.store
    ensures service.Valid() && old(service.trace) <= service.trace
    ensures normal ==> Progress(batch, |batch|, service.trace, acks, retries, |old(service.trace)|)
    ensures normal ==>
      Recorded(service.world, batch, |batch|, acks, retries, old(service.log), service.log, made)
    ensures !normal ==> LastCallThrew(service, old(service.log))
  {
    acks, retries, made := [], [], [];
    ghost var from, start := |service.trace|, service.log;
    for i := 0 to |batch|
      invariant service.Valid() && old(service.trace) <= service.trace && start <= service.log
      invariant Progress(batch, i, service.trace, acks, retries, from)
      invariant Recorded(service.world, batch, i, acks, retries, start, service.log, made)
    {
      ghost var trace, log := service.trace, service.log;
      var line := ProcessLease(service, batch[i], from);
      if line.None? { return false, acks, retries, made; }
      ProgressOneMore(batch, i, trace, service.trace, acks, retries, from, line.value);
      RecordedOneMore(service.world, batch, i, acks, retries, start, log, service.log, made, line.value);
      made := made + [service.log[|log|..]];
      match line.value {
        case AckLine => acks := acks + [batch[i].leaseId];
        case RetryAfter(delaySeconds) => retries := retries + [RetryLine(batch[i].leaseId, delaySeconds)];
      }
    }
    return true, acks, retries, made;
  }

  lemma AckAdded(trace: seq<Step>, from: nat, batch: seq<InboxLease>, i: nat, acks: seq<LeaseId>)
    requires i < |batch| && Distinct(LeaseIds(batch)) && from <= |trace|
    requires AcksJustified(trace, from, batch, acks) && Justified(trace, from, batch[i])
    ensures AcksJustified(trace, from, batch, acks + [batch[i].leaseId])
  {
    OnlyThisLease(batch, i);
  }

  lemma LineAdded(batch: seq<InboxLease>, i: nat, acks: seq<LeaseId>, retries: seq<RetryLine>, line: Line)
    requires i < |batch| && Partition(batch[..i], acks, retries)
    ensures line.AckLine? ==> Partition(batch[..i + 1], acks + [batch[i].leaseId], retries)
    ensures line.RetryAfter? ==>
      Partition(batch[..i + 1], acks, retries + [RetryLine(batch[i].leaseId, line.delaySeconds)])
  {
    assert LeaseIds(batch[..i + 1]) == LeaseIds(batch[..i]) + [batch[i].leaseId];
    if line.RetryAfter? {
      var added := RetryLine(batch[i].leaseId, line.delaySeconds);
      assert RetryIds(retries + [added]) == RetryIds(retries) + [added.leaseId];
    }
  }

  /** Every lease of the batch is settled, each once and as the calls made for it lead to; every acknowledgement was
      justified after step `from`; the last step is that settlement; and none of the leases is in force. */
  ghost predicate BatchSettled(world: World, batch: seq<InboxLease>, acks: seq<LeaseId>, retries: seq<RetryLine>,
                               from: nat, trace: seq<Step>, start: seq<Call>, log: seq<Call>, made: seq<seq<Call>>) {
    && Partition(batch, acks, retries) && AcksJustified(trace, from, batch, acks)
    && Recorded(world, batch, |batch|, acks, retries, start, log, made)
    && (batch != [] ==> |trace| > from && Settles(trace[|trace| - 1], acks, retries))
    && forall k :: 0 <= k < |batch| ==> !Current(Exec(trace).db.inbox, batch[k].leaseId)
  }

  /** The whole of `processQueueBatch`. It returns normally unless a call threw. Then it has settled every lease of the
      batch, each exactly once and as the calls made for it lead to: a lease is acknowledged exactly if its last call
      was a bad body put on file, a claim of a job that is over, or an acknowledged report, and waits otherwise. What
      it acknowledged it was entitled to, and none of its leases is in force. */
  method ProcessQueueBatch(service: Service, batch: seq<InboxLease>)
    returns (normal: bool, acks: seq<LeaseId>, retries: seq<RetryLine>, ghost made: seq<seq<Call>>)
    requires service.Valid() && Distinct(LeaseIds(batch)) && AllHeld(service.system, batch)
    modifies service, service.store
    ensures service.Valid() && old(service.trace) <= service.trace
    ensures normal ==>
      BatchSettled(service.world, batch, acks, retries, |old(service.trace)|, service.trace, old(service.log),
                   service.log, made)
    ensures !normal ==> LastCallThrew(service, old(service.log))
  {
    normal, acks, retries, made := DecideBatch(service, batch);
    if normal {
      normal := SettleBatch(service, batch, acks, retries, |old(service.trace)|, old(service.log), made);
    }
  }

  /** The last call made threw: one for a lease, or the settlement. */
  ghost predicate LastCallThrew(service: Service, start: seq<Call>)
    reads service
  {
    || (|service.log| > |start| && Throws(service.log[|service.log| - 1]))
    || (service.calls > 0 && service.world.faults(service.calls - 1) != Fine)
  }

  /** The settlement of a decided batch; an empty one is not sent. */
  method SettleBatch(service: Service, batch: seq<InboxLease>, acks: seq<LeaseId>, retries: seq<RetryLine>,
                     ghost from: nat, ghost start: seq<Call>, ghost made: seq<seq<Call>>)
    returns (normal: bool)
    requires service.Valid() && Distinct(LeaseIds(batch)) && from <= |service.trace|
    requires Progress(batch, |batch|, service.trace, acks, retries, from)
    requires Recorded(service.world, batch, |batch|, acks, retries, start, service.log, made)
    modifies service, service.store
    ensures service.Valid() && old(service.trace) <= service.trace
    ensures normal ==>
      BatchSettled(service.world, batch, acks, retries, from, service.trace, start, service.log, made)
    ensures !normal ==> LastCallThrew(service, start)
  {
    assert batch[..|batch|] == batch;
    PartitionIsDisjoint(batch, acks, retries);
    PartitionCounts(batch, acks, retries);
    if acks == [] && retries == [] { return true; }
    assert Holds(service.system, batch[0]);
    ghost var trace := service.trace;
    normal := service.SettleLeases(acks, retries);
    RunGoesOn(trace, service.trace, from, batch, acks);
    if normal { NoneInForce(batch, acks, retries, service.system.db.inbox); }
  }

  lemma NoneInForce(batch: seq<InboxLease>, acks: seq<LeaseId>, retries: seq<RetryLine>, inbox: Inbox)
    requires Partition(batch, acks, retries)
    requires forall l :: l in acks || (exists r :: r in retries && r.leaseId == l) ==> !Current(inbox, l)
    ensures forall k :: 0 <= k < |batch| ==> !Current(inbox, batch[k].leaseId)
  {
    forall k | 0 <= k < |batch| ensures !Current(inbox, batch[k].leaseId) {
      EveryLeaseNamed(batch, acks, retries, k);
    }
  }

  lemma PartitionCounts(batch: seq<InboxLease>, acks: seq<LeaseId>, retries: seq<RetryLine>)
    requires Partition(batch, acks, retries)
    ensures |batch| == |acks| + |retries|
  {
    assert |multiset(LeaseIds(batch))| == |multiset(acks) + multiset(RetryIds(retries))| == |acks| + |retries|;
  }

  lemma OnlyThisLease(batch: seq<InboxLease>, i: nat)
    requires i < |batch| && Distinct(LeaseIds(batch))
    ensures forall k :: 0 <= k < |batch| && batch[k].leaseId == batch[i].leaseId ==> k == i
  {
    forall k | 0 <= k < |batch| && k != i ensures batch[k].leaseId != batch[i].leaseId {
      assert LeaseIds(batch)[k] != LeaseIds(batch)[i];
    }
  }

  lemma EveryLeaseNamed(batch: seq<InboxLease>, acks: seq<LeaseId>, retries: seq<RetryLine>, k: nat)
    requires k < |batch| && Partition(batch, acks, retries)
    ensures batch[k].leaseId in acks || exists r :: r in retries && r.leaseId == batch[k].leaseId
  {
    var l := batch[k].leaseId;
    assert LeaseIds(batch)[k] == l;
    assert l in multiset(LeaseIds(batch));
    if l !in acks {
      assert l in multiset(RetryIds(retries));
      var i :| 0 <= i < |retries| && RetryIds(retries)[i] == l;
      assert retries[i] in retries;
    }
  }
}
