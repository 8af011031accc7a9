/** Collection runs inside the protocol: a source reports to its run at most once in a whole run of the
    system, so the run row is the one `SyncRun` determines from the set of reports, unless the request that
    opened the run has written since that the queue refused its jobs. */
module CollectionRuns {
  import opened Basics
  import opened Identifiers
  import opened Store
  import opened Protocol
  import opened Ledger
  import SyncRun

  predicate CollectEnded(jobs: Jobs, k: DedupeKey) {
    k in jobs && jobs[k].kind == CollectSource && (jobs[k].status == Done || jobs[k].status == Dead)
  }

  /** The step ends the collection job under `k`, which makes it report to its run. */
  predicate Reports(s: System, step: Step, k: DedupeKey) {
    step.FinishStep? && Enabled(s, step) &&
    var j := s.held[step.lease].body.job.jobId;
    j.key == k && k in s.db.jobs && s.db.jobs[k].kind == CollectSource &&
    (VerdictFor(s.db, j, step.input).ToDone? || VerdictFor(s.db, j, step.input).ToDead?)
  }

  /** What that report says. */
  function Report(s: System, step: Step, source: SyncRun.Source): SyncRun.Completion
    requires step.FinishStep? && Enabled(s, step)
  {
    var verdict := VerdictFor(s.db, s.held[step.lease].body.job.jobId, step.input);
    SyncRun.Completion(source,
      match verdict
      case ToDone(summary) => SyncRun.Succeeded(summary)
      case ToDead(_, message, _) => SyncRun.Failed(if message == "" then None else Some(message))
      case _ => SyncRun.Failed(None),
      step.now)
  }

  function RunOf(s: System, step: Step): Option<DedupeKey> {
    if step.FinishStep? && Enabled(s, step) then
      var k := s.held[step.lease].body.job.DedupeKey();
      if k.CollectKey? && Reports(s, step, k) then Some(k) else None
    else None
  }

  /** The reports to a run since it was opened, in order. */
  function Reported(steps: seq<Step>, run: RunId): seq<SyncRun.Completion> {
    if steps == [] then []
    else
      var before, step := steps[..|steps| - 1], steps[|steps| - 1];
      var s := Exec(before);
      if run !in s.db.runs then []
      else if RunOf(s, step).Some? && RunOf(s, step).value.run == run then
        Reported(before, run) + [Report(s, step, RunOf(s, step).value.source)]
      else Reported(before, run)
  }

  /** The sources and the instant a run was opened with. */
  function Opened(steps: seq<Step>, run: RunId): (seq<SyncRun.Source>, Instant) {
    if steps == [] then ([], 0)
    else
      var before, step := steps[..|steps| - 1], steps[|steps| - 1];
      if run !in Exec(before).db.runs && step.OpenRunStep? && step.run == run then (step.queued, step.now)
      else Opened(before, run)
  }

  /** The failure to publish written since the last report to the run, if any: the last one. */
  function Unpublished(steps: seq<Step>, run: RunId): Option<(string, Instant)> {
    if steps == [] then None
    else
      var before, step := steps[..|steps| - 1], steps[|steps| - 1];
      var s := Exec(before);
      if run !in s.db.runs then None
      else if RunOf(s, step).Some? && RunOf(s, step).value.run == run then None
      else if step.PublishFailedStep? && step.run == run then Some((step.error, step.now))
      else Unpublished(before, run)
  }

  /** What the reports alone make of the row a run was opened as. */
  function ByReports(steps: seq<Step>, run: RunId): SyncRun.RunView {
    SyncRun.Replayed(Opened(steps, run).0, Opened(steps, run).1, Reported(steps, run))
  }

  function Endings(steps: seq<Step>, k: DedupeKey): nat {
    if steps == [] then 0
    else
      var before := steps[..|steps| - 1];
      Endings(before, k) + if Reports(Exec(before), steps[|steps| - 1], k) then 1 else 0
  }

  lemma FinishEnds(db: Db, x: JobId, input: JobResult, now: Instant, k: DedupeKey)
    requires k in db.jobs
    ensures k in FinishJob(db, x, input, now).jobs && FinishJob(db, x, input, now).jobs[k].kind == db.jobs[k].kind
    ensures var verdict, after := VerdictFor(db, x, input), FinishJob(db, x, input, now).jobs;
      if x.key == k && db.jobs[k].kind == CollectSource && (verdict.ToDone? || verdict.ToDead?)
      then !CollectEnded(db.jobs, k) && CollectEnded(after, k)
      else CollectEnded(after, k) == CollectEnded(db.jobs, k)
  {
  }

  lemma ClaimEndsNothing(jobs: Jobs, job: Job, now: Instant, k: DedupeKey)
    ensures CollectEnded(ClaimedJobs(jobs, job, now), k) == CollectEnded(jobs, k)
  {
  }

  /** Only articles have envelopes, and only a job with an envelope is republished. */
  lemma ReplayEndsNothing(db: Db, x: JobId, key: IdempotencyKey, dryRun: bool, now: Instant, k: DedupeKey)
    requires LedgerInv(db)
    ensures CollectEnded(Replay(db, x, key, dryRun, now).jobs, k) == CollectEnded(db.jobs, k)
  {
    if Publishes(db, x, key, dryRun) {
      PublicationEffect(db, x, key, now);
      assert EnvelopeSound(db.jobs, x, db.envelopes[x]);
    }
  }

  lemma EndingMoves(s: System, step: Step, k: DedupeKey)
    requires LedgerInv(s.db)
    ensures CollectEnded(Apply(s, step).db.jobs, k) <==> CollectEnded(s.db.jobs, k) || Reports(s, step, k)
    ensures Reports(s, step, k) ==> !CollectEnded(s.db.jobs, k)
  {
    if Enabled(s, step) {
      match step
      case ClaimStep(lease, now) => ClaimEndsNothing(s.db.jobs, s.held[lease].body.job, now, k);
      case FinishStep(lease, input, now) =>
        var x := s.held[lease].body.job.jobId;
        FinishFrame(s.db, x, input, now);
        if k in s.db.jobs { FinishEnds(s.db, x, input, now, k); }
      case ReplayStep(x, key, dryRun, now) => ReplayEndsNothing(s.db, x, key, dryRun, now, k);
      case _ =>
    }
  }

  /** A collection job has no envelope, so no replay revives it: it ends at most once, ever. */
  lemma {:induction false} CollectEndsOnce(steps: seq<Step>, k: DedupeKey)
    ensures Endings(steps, k) == if CollectEnded(Exec(steps).db.jobs, k) then 1 else 0
  {
    if steps != [] {
      var before := steps[..|steps| - 1];
      CollectEndsOnce(before, k);
      LedgerInvHolds(before);
      EndingMoves(Exec(before), steps[|steps| - 1], k);
    }
  }

  lemma RunMoves(s: System, step: Step, run: RunId)
    requires run in s.db.runs
    ensures run in Apply(s, step).db.runs
    ensures Apply(s, step).db.runs[run] ==
      if RunOf(s, step).Some? && RunOf(s, step).value.run == run
      then SyncRun.AdvanceSyncJob(s.db.runs[run].stats, Report(s, step, RunOf(s, step).value.source))
      else if step.PublishFailedStep? && step.run == run
      then SyncRun.PublishFailed(s.db.runs[run], step.error, step.now)
      else s.db.runs[run]
  {
  }

  /** The run row is what its reports, taken in the order they came, make of the row it was opened as; a failure
      to publish written since the last of them shows in the status, the error and the time, never in the stats. */
  lemma {:induction false} RunRowReplaysReports(steps: seq<Step>, run: RunId)
    requires run in Exec(steps).db.runs
    ensures Exec(steps).db.runs[run] ==
      match Unpublished(steps, run)
      case None => ByReports(steps, run)
      case Some((error, at)) => SyncRun.PublishFailed(ByReports(steps, run), error, at)
  {
    var before, step := steps[..|steps| - 1], steps[|steps| - 1];
    if run in Exec(before).db.runs {
      RunRowReplaysReports(before, run);
      RunMoves(Exec(before), step, run);
      if RunOf(Exec(before), step).Some? && RunOf(Exec(before), step).value.run == run {
        var n := |Reported(steps, run)| - 1;
        assert Reported(steps, run)[..n] == Reported(before, run);
      }
    } else {
      RunAppears(Exec(before), step, run);
    }
  }

  lemma RunAppears(s: System, step: Step, run: RunId)
    requires run !in s.db.runs && run in Apply(s, step).db.runs
    ensures step.OpenRunStep? && step.run == run
    ensures Apply(s, step).db.runs[run] == SyncRun.OpenRun(step.queued, step.now)
  {
  }

  /** Whoever has reported has ended, so nobody reports twice. */
  lemma {:induction false} ReportsAreDistinct(steps: seq<Step>, run: RunId)
    ensures Distinct(SyncRun.Sources(Reported(steps, run)))
    ensures forall s :: s in SyncRun.Sources(Reported(steps, run)) ==>
      CollectEnded(Exec(steps).db.jobs, CollectKey(s, run))
  {
    if steps != [] {
      var before, step := steps[..|steps| - 1], steps[|steps| - 1];
      ReportsAreDistinct(before, run);
      LedgerInvHolds(before);
      forall s | s in SyncRun.Sources(Reported(before, run))
        ensures CollectEnded(Exec(steps).db.jobs, CollectKey(s, run))
      {
        EndingMoves(Exec(before), step, CollectKey(s, run));
      }
      if RunOf(Exec(before), step).Some? && RunOf(Exec(before), step).value.run == run && run in Exec(before).db.runs {
        var source := RunOf(Exec(before), step).value.source;
        EndingMoves(Exec(before), step, CollectKey(source, run));
        assert SyncRun.Sources(Reported(steps, run)) == SyncRun.Sources(Reported(before, run)) + [source];
      }
    }
  }

  /** In every reachable state the row of a run whose reports come from queued sources is settled by the set of
      those reports, whichever arrived first, exactly if no failure to publish was written since the last report,
      or the failure says by chance what the reports say: all are in, and the first failure has that text. */
  lemma RunSettledByReports(steps: seq<Step>, run: RunId)
    requires run in Exec(steps).db.runs && Opened(steps, run).0 != []
    requires forall s :: s in SyncRun.Sources(Reported(steps, run)) ==> s in Opened(steps, run).0
    ensures var reports := ByReports(steps, run);
      SyncRun.Settled(Opened(steps, run).0, Reported(steps, run), Exec(steps).db.runs[run]) <==>
        Unpublished(steps, run).None? ||
        (reports.status == SyncRun.RunFailed && reports.error == Some(Unpublished(steps, run).value.0))
    ensures Exec(steps).db.runs[run].stats == ByReports(steps, run).stats
    ensures SyncRun.Settled(Opened(steps, run).0, Reported(steps, run), ByReports(steps, run))
  {
    RunRowReplaysReports(steps, run);
    ReportsAreDistinct(steps, run);
    SyncRun.RunFollowsReports(Opened(steps, run).0, Opened(steps, run).1, Reported(steps, run));
    if Unpublished(steps, run).Some? {
      var (error, at) := Unpublished(steps, run).value;
      SyncRun.SettledAfterFailure(Opened(steps, run).0, Reported(steps, run), ByReports(steps, run), error, at);
    }
  }
}
