/** Short runs that reach the states one might take to be impossible. */
module Witnesses {
  import opened Basics
  import opened Identifiers
  import Effects
  import opened Store
  import opened Protocol
  import opened Audit
  import opened Deferral
  import opened Fulfilment
  import Database
  import DispatchHandler
  import EffectRuns
  import QueueProcessor
  import SyncRun

  lemma After(steps: seq<Step>, step: Step)
    ensures Exec(steps + [step]) == Apply(Exec(steps), step)
  {
    assert (steps + [step])[..|steps|] == steps;
  }

  // --------------------------------------------------------------- one message

  function MessageOf(e: ExternalId): MessageId { External(e) }

  /** One message is staged and handed out at time `t`. */
  function Delivered(before: seq<Step>, e: ExternalId, body: Body, l: LeaseId, t: Instant): seq<Step> {
    before + [StageStep([Incoming(e, body, t)], t)] + [PullStep([HandOut(MessageOf(e), l)], 90_000, t)]
  }

  lemma DeliveredState(before: seq<Step>, e: ExternalId, body: Body, l: LeaseId, t: Instant)
    requires Exec(before).db.inbox == map[] && Exec(before).held == map[]
    ensures var s, start := Exec(Delivered(before, e, body, l, t)), Exec(before);
      && s.held == map[l := Holding(MessageOf(e), body)] && s.decided == start.decided
      && s.db == start.db.(inbox := s.db.inbox)
      && s.db.inbox == map[MessageOf(e) := InboxRow(body, Leased(l, t + 90_000), 1, t, t, t, t)]
  {
    var stage, m := StageStep([Incoming(e, body, t)], t), MessageOf(e);
    var hand := HandOut(m, l);
    var pull := PullStep([hand], 90_000, t);
    After(before, stage);
    var s := Exec(before + [stage]);
    assert [Incoming(e, body, t)][..0] == [];
    assert Stage(map[], [Incoming(e, body, t)], t) == map[m := InboxRow(body, Queued, 0, t, t, t, t)];
    assert s.db.inbox == map[m := InboxRow(body, Queued, 0, t, t, t, t)];
    assert ReclaimExpired(s.db.inbox, t) == s.db.inbox;
    assert Enabled(s, pull);
    After(before + [stage], pull);
    assert [hand][..0] == [];
    assert Hold(map[], s.db.inbox, [hand]) == map[l := Holding(m, body)];
    assert LeaseAll(s.db.inbox, [hand], t + 90_000, t) == LeaseOne(s.db.inbox, hand, t + 90_000, t);
  }

  /** Its job is claimed for the first time. */
  lemma ClaimedState(before: seq<Step>, e: ExternalId, job: Job, l: LeaseId, t: Instant)
    requires Exec(before).db.inbox == map[] && Exec(before).held == map[] && job.DedupeKey() !in Exec(before).db.jobs
    requires job.jobId !in Exec(before).db.envelopes
    ensures var s, start := Exec(Delivered(before, e, Parsed(job), l, t) + [ClaimStep(l, t)]), Exec(before);
      && s.held == map[l := Holding(MessageOf(e), Parsed(job))]
      && s.db.jobs == start.db.jobs[job.DedupeKey() := FreshJob(job, t)]
      && s.db.envelopes == (if job.IsArticle() then start.db.envelopes[job.jobId := FreshEnvelope(job, t)]
                            else start.db.envelopes)
      && s.db.letters == start.db.letters && s.db.operations == start.db.operations && s.db.runs == start.db.runs
  {
    var delivered := Delivered(before, e, Parsed(job), l, t);
    DeliveredState(before, e, Parsed(job), l, t);
    FirstClaim(Exec(delivered), job, l, MessageOf(e), t);
    After(delivered, ClaimStep(l, t));
  }

  lemma FirstClaim(s: System, job: Job, l: LeaseId, m: MessageId, t: Instant)
    requires l in s.held && s.held[l] == Holding(m, Parsed(job))
    requires job.DedupeKey() !in s.db.jobs && job.jobId !in s.db.envelopes
    ensures var after := Apply(s, ClaimStep(l, t));
      && after.held == s.held && after.db.jobs == s.db.jobs[job.DedupeKey() := FreshJob(job, t)]
      && after.db.envelopes == (if job.IsArticle() then s.db.envelopes[job.jobId := FreshEnvelope(job, t)]
                                else s.db.envelopes)
      && after.db.letters == s.db.letters && after.db.operations == s.db.operations && after.db.runs == s.db.runs
  {
  }

  // ------------------------------------------------------------------ the audit

  function Fails(e: ExternalId, job: Job, l: LeaseId, t: Instant, message: string): seq<Step> {
    Delivered([], e, Parsed(job), l, t) + [ClaimStep(l, t)] +
    [FinishStep(l, ReportFailed(Some(Effects.Permanent), Some(message), Some(Digest(Parsed(job)))), t)]
  }

  /** A permanent failure kills the job that was claimed just now. */
  lemma FirstFailureKills(db: Db, job: Job, message: string, t: Instant)
    requires db.jobs == map[job.DedupeKey() := FreshJob(job, t)] && db.letters == map[]
    ensures var after := FinishJob(db, job.jobId,
        ReportFailed(Some(Effects.Permanent), Some(message), Some(Digest(Parsed(job)))), t);
      && after.jobs.Keys == {job.DedupeKey()} && HasJob(after.jobs, job.jobId)
      && after.jobs[job.DedupeKey()].status == Dead
      && after.letters.Keys == {ForJob(job.jobId)} && after.letters[ForJob(job.jobId)].createdAt == t
      && after.envelopes.Keys == db.envelopes.Keys && after.operations == db.operations
  {
  }

  lemma FailedState(e: ExternalId, job: Job, l: LeaseId, t: Instant, message: string)
    ensures var db := Exec(Fails(e, job, l, t, message)).db;
      && db.jobs.Keys == {job.DedupeKey()} && HasJob(db.jobs, job.jobId) && db.jobs[job.DedupeKey()].status == Dead
      && db.letters.Keys == {ForJob(job.jobId)} && db.letters[ForJob(job.jobId)].createdAt == t
      && (job.jobId in db.envelopes <==> job.IsArticle()) && db.operations == map[]
  {
    ClaimedState([], e, job, l, t);
    var claimed := Delivered([], e, Parsed(job), l, t) + [ClaimStep(l, t)];
    FirstFailureKills(Exec(claimed).db, job, message, t);
    After(claimed, FinishStep(l, ReportFailed(Some(Effects.Permanent), Some(message), Some(Digest(Parsed(job)))), t));
  }

  /** A report that froze its instant just before a job died lists the job without its letter. One clock is enough:
      the instant is read first, the tables later. */
  lemma UnfiledIsReachable(e: ExternalId, job: Job, l: LeaseId, t: Instant, message: string)
    ensures ForJob(job.jobId) in InCategory(Exec(Fails(e, job, l, t, message)).db, t - 1, DeadWithoutDlq)
  {
    FailedState(e, job, l, t, message);
    UnfiledMeansLateClock(Fails(e, job, l, t, message), t - 1, job.jobId);
  }

  /** A job that is no article has no envelope, so its letter is reported as missing one. */
  lemma MissingEnvelopeIsReachable(e: ExternalId, job: Job, l: LeaseId, t: Instant, message: string)
    requires !job.IsArticle()
    ensures ForJob(job.jobId) in InCategory(Exec(Fails(e, job, l, t, message)).db, t, MissingEnvelope)
  {
    FailedState(e, job, l, t, message);
    var db := Exec(Fails(e, job, l, t, message)).db;
    assert ForJob(job.jobId) in db.letters && Audit.Frozen(db, ForJob(job.jobId), t);
    CategoryInRun(Fails(e, job, l, t, message), ForJob(job.jobId));
  }

  /** The letter of a body that does not parse belongs to no job. */
  lemma OrphanIsReachable(e: ExternalId, raw: Raw, l: LeaseId, t: Instant, reason: string)
    ensures var steps := Delivered([], e, Malformed(raw), l, t) + [RejectStep(l, 1, reason, t)];
      ForMessage(MessageOf(e)) in InCategory(Exec(steps).db, t, OrphanDlq)
  {
    var delivered := Delivered([], e, Malformed(raw), l, t);
    var steps := delivered + [RejectStep(l, 1, reason, t)];
    DeliveredState([], e, Malformed(raw), l, t);
    After(delivered, RejectStep(l, 1, reason, t));
    assert ForMessage(MessageOf(e)) in Exec(steps).db.letters;
    CategoryInRun(steps, ForMessage(MessageOf(e)));
  }

  // ------------------------------------------------------------------- the runs

  /** A run with one source whose jobs the queue refused, as far as the request could tell. */
  function Refused(run: RunId, source: SyncRun.Source, error: string, t: Instant): seq<Step> {
    [] + [OpenRunStep(run, [source], t)] + [PublishFailedStep(run, error, t)]
  }

  lemma RefusedState(run: RunId, source: SyncRun.Source, error: string, t: Instant)
    ensures var s := Exec(Refused(run, source, error, t));
      s == START.(db := EMPTY.(runs := map[run :=
        SyncRun.RunView(SyncRun.Stats([source], map[]), SyncRun.RunFailed, Some(error), Some(t))]))
  {
    After([], OpenRunStep(run, [source], t));
    After([] + [OpenRunStep(run, [source], t)], PublishFailedStep(run, error, t));
  }

  /** The run row is failed although no source has reported: the reports do not settle it. */
  lemma FailedWithoutReports(run: RunId, source: SyncRun.Source, error: string, t: Instant)
    ensures var runs := Exec(Refused(run, source, error, t)).db.runs;
      run in runs && runs[run].status == SyncRun.RunFailed && !SyncRun.Settled([source], [], runs[run])
  {
    RefusedState(run, source, error, t);
    assert source in [source];
  }

  /** The report of the only source ends the run. */
  lemma FirstReportEnds(db: Db, job: Job, run: RunId, source: SyncRun.Source, error: string, t: Instant)
    requires job.kind == CollectSource && job.DedupeKey() == CollectKey(source, run)
    requires db.jobs == map[job.DedupeKey() := FreshJob(job, t)]
    requires db.runs == map[run :=
      SyncRun.RunView(SyncRun.Stats([source], map[]), SyncRun.RunFailed, Some(error), Some(t))]
    ensures var runs := FinishJob(db, job.jobId, ReportDone(None), t).runs;
      run in runs && runs[run].status == SyncRun.RunDone && runs[run].error == None
  {
  }

  /** And if the job had reached the queue after all, its report turns the failed run into a done one. */
  lemma FailureOverwritten(run: RunId, source: SyncRun.Source, error: string, e: ExternalId, job: Job, l: LeaseId,
                           t: Instant)
    requires job.kind == CollectSource && job.DedupeKey() == CollectKey(source, run)
    ensures var steps := Delivered(Refused(run, source, error, t), e, Parsed(job), l, t) + [ClaimStep(l, t)] +
        [FinishStep(l, ReportDone(None), t)];
      run in Exec(steps).db.runs && Exec(steps).db.runs[run].status == SyncRun.RunDone &&
      Exec(steps).db.runs[run].error == None
  {
    RefusedState(run, source, error, t);
    ClaimedState(Refused(run, source, error, t), e, job, l, t);
    var claimed := Delivered(Refused(run, source, error, t), e, Parsed(job), l, t) + [ClaimStep(l, t)];
    FirstReportEnds(Exec(claimed).db, job, run, source, error, t);
    After(claimed, FinishStep(l, ReportDone(None), t));
  }

  // ------------------------------------------------------------------- a deferral

  const RETRY_AT: Instant := 400_000

  /** A worker whose handler defers every job until `RETRY_AT`. Its clock shows 0 for the first lease. */
  function Patient(first: LeaseId, reason: string): QueueProcessor.World {
    QueueProcessor.World(
      others := n => [], clock := n => 0, faults := n => Fine, accept := job => QueueProcessor.Accept,
      parseError := l => "", handle := l => QueueProcessor.HandlerDeferred(reason, RETRY_AT),
      callError := l => (Effects.Permanent, ""), workerClock := l => if l == first then 0 else 300_000)
  }

  function DeferOnce(e: ExternalId, job: Job, l: LeaseId, reason: string): seq<Step> {
    Delivered([], e, Parsed(job), l, 0) + [ClaimStep(l, 0)] + [FinishStep(l, ReportDeferred(RETRY_AT, reason), 0)]
  }

  lemma CallsWhenDelivered(e: ExternalId, body: Body, l: LeaseId, k: LeaseId)
    ensures CallsOn(Delivered([], e, body, l, 0), k) == [] && LastCallAt(Delivered([], e, body, l, 0), k) == 0
  {
    var stage, pull := StageStep([Incoming(e, body, 0)], 0), PullStep([HandOut(MessageOf(e), l)], 90_000, 0);
    RunOn([], stage, k);
    RunOn([] + [stage], pull, k);
  }

  function Claimed(e: ExternalId, job: Job, l: LeaseId): seq<Step> {
    Delivered([], e, Parsed(job), l, 0) + [ClaimStep(l, 0)]
  }

  lemma ClaimedCalls(e: ExternalId, job: Job, l: LeaseId)
    ensures var s := Exec(Claimed(e, job, l));
      && s.held == map[l := Holding(MessageOf(e), Parsed(job))]
      && s.db.inbox == map[MessageOf(e) := InboxRow(Parsed(job), Leased(l, 90_000), 1, 0, 0, 0, 0)]
      && s.db.jobs == map[job.DedupeKey() := FreshJob(job, 0)]
    ensures CallsOn(Claimed(e, job, l), l) == [QueueProcessor.ClaimCall(Some(ClaimAnswer.Claimed(1)))]
    ensures LastCallAt(Claimed(e, job, l), l) == 0
  {
    var delivered, claim := Delivered([], e, Parsed(job), l, 0), ClaimStep(l, 0);
    DeliveredState([], e, Parsed(job), l, 0);
    CallsWhenDelivered(e, Parsed(job), l, l);
    RunOn(delivered, claim, l);
  }

  /** The first claim is followed by a deferred report. */
  lemma ReportIsProper(lease: Database.InboxLease, job: Job, l: LeaseId, reason: string)
    requires lease.body == Parsed(job)
    ensures ProperSoFar(Patient(l, reason), lease,
      [QueueProcessor.ClaimCall(Some(ClaimAnswer.Claimed(1)))] +
      [QueueProcessor.FinishCall(ReportDeferred(RETRY_AT, reason), Some(Retry(300)))])
  {
    var calls := [QueueProcessor.ClaimCall(Some(ClaimAnswer.Claimed(1)))] +
                 [QueueProcessor.FinishCall(ReportDeferred(RETRY_AT, reason), Some(Retry(300)))];
    assert calls + [] == calls;
    assert QueueProcessor.ProperCalls(Patient(l, reason), lease, calls + []);
  }

  lemma DeferOnceState(e: ExternalId, job: Job, l: LeaseId, reason: string)
    ensures var run := DeferOnce(e, job, l, reason);
      && Exec(run).held == map[l := Holding(MessageOf(e), Parsed(job))]
      && Exec(run).db.inbox == map[MessageOf(e) := InboxRow(Parsed(job), Leased(l, 90_000), 1, 0, 0, 0, 0)]
      && Exec(run).db.jobs.Keys == {job.DedupeKey()} && Exec(run).db.jobs[job.DedupeKey()].status == Deferred
      && Exec(run).db.jobs[job.DedupeKey()].deferredUntil == Some(RETRY_AT)
    ensures var run := DeferOnce(e, job, l, reason);
      && CallsOn(run, l) == [QueueProcessor.ClaimCall(Some(ClaimAnswer.Claimed(1)))] +
                            [QueueProcessor.FinishCall(ReportDeferred(RETRY_AT, reason), Some(Retry(300)))]
      && LastCallAt(run, l) == 0
  {
    ClaimedCalls(e, job, l);
    RunOn(Claimed(e, job, l), FinishStep(l, ReportDeferred(RETRY_AT, reason), 0), l);
  }

  lemma DeferOnceFollows(e: ExternalId, job: Job, l: LeaseId, reason: string)
    ensures DeferredAt(Patient(l, reason), DeferOnce(e, job, l, reason), 3, MessageOf(e), l, RETRY_AT)
  {
    var run := DeferOnce(e, job, l, reason);
    ClaimedCalls(e, job, l);
    ReportIsProper(LineOfLease(Exec(Claimed(e, job, l)), l), job, l, reason);
    assert run[..|run| - 1] == Claimed(e, job, l);
  }

  function PutsOff(l: LeaseId): Step { SettleStep([], [RetryLine(l, Some(300))], 0) }

  function HandsBack(e: ExternalId, next: LeaseId): Step { PullStep([HandOut(MessageOf(e), next)], 90_000, 300_000) }

  /** The lease is settled with the delay of 300 seconds the report was answered with. */
  function PutOff(e: ExternalId, job: Job, l: LeaseId, reason: string): seq<Step> {
    DeferOnce(e, job, l, reason) + [PutsOff(l)]
  }

  lemma PutOffState(e: ExternalId, job: Job, l: LeaseId, reason: string)
    ensures var s := Exec(PutOff(e, job, l, reason));
      && s.held == Exec(DeferOnce(e, job, l, reason)).held && s.db.jobs == Exec(DeferOnce(e, job, l, reason)).db.jobs
      && s.db.inbox == map[MessageOf(e) := InboxRow(Parsed(job), Queued, 1, 300_000, 0, 0, 0)]
  {
    DeferOnceState(e, job, l, reason);
    PutsOffState(Exec(DeferOnce(e, job, l, reason)), MessageOf(e), Parsed(job), l);
    After(DeferOnce(e, job, l, reason), PutsOff(l));
  }

  lemma PutsOffState(s: System, m: MessageId, body: Body, l: LeaseId)
    requires s.db.inbox == map[m := InboxRow(body, Leased(l, 90_000), 1, 0, 0, 0, 0)]
    ensures Apply(s, PutsOff(l)) ==
      s.(db := s.db.(inbox := map[m := InboxRow(body, Queued, 1, 300_000, 0, 0, 0)]))
  {
    assert Settle(s.db.inbox, [], [RetryLine(l, Some(300))], 0) ==
      map[m := InboxRow(body, Queued, 1, 300_000, 0, 0, 0)];
  }

  lemma PutOffFollows(e: ExternalId, job: Job, l: LeaseId, reason: string)
    ensures Follows(Patient(l, reason), DeferOnce(e, job, l, reason), PutsOff(l), MessageOf(e))
  {
    DeferOnceState(e, job, l, reason);
  }

  /** The message comes back when the delay is over. */
  function BackAgain(e: ExternalId, job: Job, l: LeaseId, next: LeaseId, reason: string): seq<Step> {
    PutOff(e, job, l, reason) + [HandsBack(e, next)]
  }

  lemma BackAgainState(e: ExternalId, job: Job, l: LeaseId, next: LeaseId, reason: string)
    requires next != l
    ensures var s, m := Exec(BackAgain(e, job, l, next, reason)), MessageOf(e);
      && s.db.jobs == Exec(DeferOnce(e, job, l, reason)).db.jobs
      && m in s.db.inbox && HeldBy(s.db.inbox[m], next)
      && next in s.held && s.held[next] == Holding(m, Parsed(job))
    ensures CallsOn(BackAgain(e, job, l, next, reason), next) == []
  {
    DeferOnceState(e, job, l, reason);
    PutOffState(e, job, l, reason);
    NoCallsYet(e, job, l, next, reason);
    HandedOutOnce(Exec(PutOff(e, job, l, reason)), MessageOf(e), next, 300_000);
    RunOn(PutOff(e, job, l, reason), HandsBack(e, next), next);
  }

  lemma HandedOutOnce(s: System, m: MessageId, l: LeaseId, t: Instant)
    requires l !in s.held && m in s.db.inbox && Eligible(ReclaimExpired(s.db.inbox, t), m, t)
    ensures var after := Apply(s, PullStep([HandOut(m, l)], 90_000, t));
      && after.db.jobs == s.db.jobs && m in after.db.inbox && HeldBy(after.db.inbox[m], l)
      && l in after.held && after.held[l] == Holding(m, s.db.inbox[m].body)
  {
    var pull := PullStep([HandOut(m, l)], 90_000, t);
    assert HandOut(m, l) in pull.hands;
    HoldRows(s.held, s.db.inbox, pull.hands);
    PullRow(s, pull, m);
  }

  lemma BackAgainFollows(e: ExternalId, job: Job, l: LeaseId, next: LeaseId, reason: string)
    ensures Follows(Patient(l, reason), PutOff(e, job, l, reason), HandsBack(e, next), MessageOf(e))
  {
    PutOffState(e, job, l, reason);
  }

  lemma NoCallsYet(e: ExternalId, job: Job, l: LeaseId, next: LeaseId, reason: string)
    requires next != l
    ensures CallsOn(PutOff(e, job, l, reason), next) == []
  {
    CallsWhenDelivered(e, Parsed(job), l, next);
    RunOn(Delivered([], e, Parsed(job), l, 0), ClaimStep(l, 0), next);
    RunOn(Claimed(e, job, l), FinishStep(l, ReportDeferred(RETRY_AT, reason), 0), next);
    RunOn(DeferOnce(e, job, l, reason), PutsOff(l), next);
  }

  function AskedAgain(e: ExternalId, job: Job, l: LeaseId, next: LeaseId, reason: string): seq<Step> {
    BackAgain(e, job, l, next, reason) + [ClaimStep(next, 300_000)]
  }

  lemma AskedAgainState(e: ExternalId, job: Job, l: LeaseId, next: LeaseId, reason: string)
    requires next != l
    ensures StillWaits(Exec(BackAgain(e, job, l, next, reason)), ClaimStep(next, 300_000), MessageOf(e), RETRY_AT)
    ensures Follows(Patient(l, reason), BackAgain(e, job, l, next, reason), ClaimStep(next, 300_000), MessageOf(e))
  {
    var before, claim := BackAgain(e, job, l, next, reason), ClaimStep(next, 300_000);
    DeferOnceState(e, job, l, reason);
    BackAgainState(e, job, l, next, reason);
    var call, lease := CallOf(Exec(before), claim), LineOfLease(Exec(before), next);
    assert [call] + [] == [call];
    assert QueueProcessor.ProperCalls(Patient(l, reason), lease, [call] + []);
    assert CallsOn(before, next) + [call] == [call];
  }

  lemma DeferralGoesOn(world: QueueProcessor.World, run: seq<Step>, step: Step, from: nat, m: MessageId, l: LeaseId,
                       retryAt: Instant)
    requires DeferredAt(world, run, from, m, l, retryAt) && Follows(world, run, step, m)
    requires run[|run| - 1].now <= step.now
    ensures DeferredAt(world, run + [step], from, m, l, retryAt)
    ensures Answers(run + [step], from, m, retryAt) ==
      Answers(run, from, m, retryAt) + if StillWaits(Exec(run), step, m, retryAt) then 1 else 0
  {
    assert (run + [step])[..|run|] == run;
  }

  lemma Clocks(e: ExternalId, job: Job, l: LeaseId, next: LeaseId, reason: string)
    ensures var r3, r4, r5 := DeferOnce(e, job, l, reason), PutOff(e, job, l, reason),
                              BackAgain(e, job, l, next, reason);
      |r3| == 4 && r3[3].now == 0 && |r4| == 5 && r4[4].now == 0 && |r5| == 6 && r5[5].now == 300_000 &&
      AskedAgain(e, job, l, next, reason)[3].now == 0
  {
  }

  /** The bound on further deferrals is reached: of the 400 seconds to wait, ceil(400 / 300) - 1 = 1 answer. */
  lemma BoundIsReached(e: ExternalId, job: Job, l: LeaseId, next: LeaseId, reason: string)
    requires next != l
    ensures var run := AskedAgain(e, job, l, next, reason);
      && DeferredAt(Patient(l, reason), run, 3, MessageOf(e), l, RETRY_AT)
      && Answers(run, 3, MessageOf(e), RETRY_AT) >= 1
      && Max(0, CeilDiv(RETRY_AT - run[3].now, LONGEST_WAIT_MS) - 1) == 1
  {
    Clocks(e, job, l, next, reason);
    BackAgainDeferred(e, job, l, next, reason);
    AskedAgainState(e, job, l, next, reason);
    DeferralGoesOn(Patient(l, reason), BackAgain(e, job, l, next, reason), ClaimStep(next, 300_000), 3, MessageOf(e), l,
                   RETRY_AT);
  }

  lemma BackAgainDeferred(e: ExternalId, job: Job, l: LeaseId, next: LeaseId, reason: string)
    requires next != l
    ensures DeferredAt(Patient(l, reason), BackAgain(e, job, l, next, reason), 3, MessageOf(e), l, RETRY_AT)
  {
    var world, m := Patient(l, reason), MessageOf(e);
    Clocks(e, job, l, next, reason);
    DeferOnceFollows(e, job, l, reason);
    PutOffFollows(e, job, l, reason);
    DeferralGoesOn(world, DeferOnce(e, job, l, reason), PutsOff(l), 3, m, l, RETRY_AT);
    BackAgainFollows(e, job, l, next, reason);
    DeferralGoesOn(world, PutOff(e, job, l, reason), HandsBack(e, next), 3, m, l, RETRY_AT);
  }

  // -------------------------------------------------------------------- a delivery

  lemma OneMoreStep(run: seq<Step>, tickets: seq<EffectRuns.Ticket>, step: Step, ticket: EffectRuns.Ticket,
                    to: Destinations)
    requires Ticketed(run, tickets) && AllHonest(run, to)
    requires HoldsTicket(Shared(run, tickets), step, ticket) && Honest(run, step, to)
    ensures Ticketed(run + [step], tickets + [ticket]) && AllHonest(run + [step], to)
    ensures EffectsOf(run + [step], tickets + [ticket]) == EffectsOf(run, tickets) + EffectOf(step, ticket)
  {
    assert (run + [step])[..|run|] == run && (tickets + [ticket])[..|run|] == tickets;
  }

  /** Steps before the job is worked on carry no effect. */
  lemma NoEffectsYet(e: ExternalId, job: Job, l: LeaseId, to: Destinations)
    ensures Ticketed(Claimed(e, job, l), [] + [0] + [0] + [0]) && AllHonest(Claimed(e, job, l), to)
    ensures EffectsOf(Claimed(e, job, l), [] + [0] + [0] + [0]) == []
  {
    var stage, pull := StageStep([Incoming(e, Parsed(job), 0)], 0), PullStep([HandOut(MessageOf(e), l)], 90_000, 0);
    OneMoreStep([], [], stage, 0, to);
    OneMoreStep([] + [stage], [] + [0], pull, 0, to);
    OneMoreStep([] + [stage] + [pull], [] + [0] + [0], ClaimStep(l, 0), 0, to);
  }

  function Delivers(e: ExternalId, job: Job, l: LeaseId, key: EffectKey): seq<Step> {
    Claimed(e, job, l) + [ClaimEffectStep(key, job.jobId, 0)] + [FinishEffectStep(key, Effects.RecordDone, 1)]
  }

  lemma DeliversState(e: ExternalId, job: Job, l: LeaseId, key: EffectKey, to: Destinations)
    ensures var run, tickets := Delivers(e, job, l, key), [] + [0] + [0] + [0] + [0] + [0];
      && Ticketed(run, tickets) && AllHonest(run, to)
      && EffectsOf(run, tickets) ==
           [] + [EffectRuns.Claim(0, key, job.jobId, 0)] + [EffectRuns.Record(0, Effects.RecordDone, 1)]
      && EffectRuns.IsDone(Shared(run, tickets).table, key)
  {
    var claimed, t3 := Claimed(e, job, l), [] + [0] + [0] + [0];
    var claim := EffectRuns.Claim(0, key, job.jobId, 0);
    NoEffectsYet(e, job, l, to);
    OneMoreStep(claimed, t3, ClaimEffectStep(key, job.jobId, 0), 0, to);
    EffectRuns.RunOne(EffectRuns.FRESH, [], claim);
    OneMoreStep(claimed + [ClaimEffectStep(key, job.jobId, 0)], t3 + [0],
                FinishEffectStep(key, Effects.RecordDone, 1), 0, to);
    EffectRuns.RunOne(EffectRuns.FRESH, [] + [claim], EffectRuns.Record(0, Effects.RecordDone, 1));
  }

  lemma DeliversInTime(key: EffectKey, j: JobId)
    ensures EffectRuns.AllInTime(EffectRuns.FRESH,
      [] + [EffectRuns.Claim(0, key, j, 0)] + [EffectRuns.Record(0, Effects.RecordDone, 1)])
  {
    var claim, record := EffectRuns.Claim(0, key, j, 0), EffectRuns.Record(0, Effects.RecordDone, 1);
    EffectRuns.RunOne(EffectRuns.FRESH, [], claim);
    EffectRuns.InTimeOne(EffectRuns.FRESH, [], claim);
    EffectRuns.InTimeOne(EffectRuns.FRESH, [] + [claim], record);
  }

  /** An item is claimed, delivered to its only destination, and reported done: the run has results in time and an
      honest report, and the item is fulfilled. */
  lemma DeliveredIsReachable(e: ExternalId, job: Job, l: LeaseId, d: Destination)
    requires job.DedupeKey().ItemKey?
    ensures var to: Destinations := k => [d];
      var run := Delivers(e, job, l, EffectKey(job.DedupeKey(), d)) + [FinishStep(l, ReportDone(None), 2)];
      var tickets := [] + [0] + [0] + [0] + [0] + [0] + [0];
      && InTime(run, tickets) && AllHonest(run, to)
      && job.DedupeKey() in Exec(run).db.jobs && Exec(run).db.jobs[job.DedupeKey()].status == Done
      && EffectRuns.OkCount(EffectsOf(run, tickets), EffectKey(job.DedupeKey(), d)) == 1
  {
    var to: Destinations := k => [d];
    var key, tickets := EffectKey(job.DedupeKey(), d), [] + [0] + [0] + [0] + [0] + [0];
    var before, finish := Delivers(e, job, l, key), FinishStep(l, ReportDone(None), 2);
    DeliversState(e, job, l, key, to);
    DeliversInTime(key, job.jobId);
    ReportIsHonest(e, job, l, d, to);
    OneMoreStep(before, tickets, finish, 0, to);
    assert EffectsOf(before, tickets) + [] == EffectsOf(before, tickets);
    StillClaimed(e, job, l, key);
    FirstReportFinishes(Exec(before), job, l, 2);
    After(before, finish);
    DeliveredOnce(before + [finish], tickets + [0], to, job.DedupeKey(), d);
  }

  lemma ReportIsHonest(e: ExternalId, job: Job, l: LeaseId, d: Destination, to: Destinations)
    requires to(job.DedupeKey()) == [d]
    ensures Honest(Delivers(e, job, l, EffectKey(job.DedupeKey(), d)), FinishStep(l, ReportDone(None), 2), to)
  {
    var key := EffectKey(job.DedupeKey(), d);
    var before := Delivers(e, job, l, key);
    DeliversState(e, job, l, key, to);
    OneTable(before, [] + [0] + [0] + [0] + [0] + [0]);
    StillClaimed(e, job, l, key);
    assert DispatchHandler.Reported(DispatchHandler.Completed, job, [d], Exec(before).db.effects);
    assert Dispatched(before, job, ReportDone(None), to);
  }

  lemma FirstReportFinishes(s: System, job: Job, l: LeaseId, t: Instant)
    requires HoldsJob(s, l) && s.held[l].body.job == job && s.db.jobs == map[job.DedupeKey() := FreshJob(job, 0)]
    ensures var jobs := Apply(s, FinishStep(l, ReportDone(None), t)).db.jobs;
      job.DedupeKey() in jobs && jobs[job.DedupeKey()].status == Done
  {
  }

  lemma StillClaimed(e: ExternalId, job: Job, l: LeaseId, key: EffectKey)
    ensures var s := Exec(Delivers(e, job, l, key));
      s.held == map[l := Holding(MessageOf(e), Parsed(job))] && s.db.jobs == map[job.DedupeKey() := FreshJob(job, 0)]
  {
    var claimed := Claimed(e, job, l);
    ClaimedCalls(e, job, l);
    After(claimed, ClaimEffectStep(key, job.jobId, 0));
    After(claimed + [ClaimEffectStep(key, job.jobId, 0)], FinishEffectStep(key, Effects.RecordDone, 1));
  }
}
