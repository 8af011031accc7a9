/** A collection run (apps/api/src/operations.ts): which sources it queued, what each one
    reported, and when the run as a whole counts as finished. */
module SyncRun {
  import opened Basics

  type Source(==, !new)

  /** The two numbers read from a collector's summary; anything else in it is ignored. */
  datatype Summary = Summary(collected: Option<int>, published: Option<int>)

  datatype SourceResult =
    | Collected(collected: int, published: int)
    | CollectFailed(error: string)

  /** The `stats` column: the queued sources in key order, and the results filed so far. */
  datatype Stats = Stats(queued: seq<Source>, results: map<Source, SourceResult>)

  datatype RunStatus = RunRunning | RunDone | RunFailed

  datatype RunView = RunView(stats: Stats, status: RunStatus, error: Option<string>, finishedAt: Option<Instant>)

  datatype Outcome = Succeeded(summary: Option<Summary>) | Failed(errorMessage: Option<string>)

  datatype Completion = Completion(source: Source, outcome: Outcome, finishedAt: Instant)

  function NonnegativeNumber(n: Option<int>): (r: int)
    ensures 0 <= r && (n.Some? && n.value >= 0 ==> r == n.value)
  {
    if n.Some? && n.value >= 0 then n.value else 0
  }

  function ResultOf(outcome: Outcome): SourceResult {
    match outcome
    case Succeeded(None) => Collected(0, 0)
    case Succeeded(Some(s)) => Collected(NonnegativeNumber(s.collected), NonnegativeNumber(s.published))
    case Failed(message) => CollectFailed(GetOr(message, "collection failed"))
  }

  predicate AllFinished(stats: Stats) {
    forall s :: s in stats.queued ==> s in stats.results
  }

  /** Source number `i` failed with that error, and none before it failed. */
  predicate FailsFirst(queued: seq<Source>, results: map<Source, SourceResult>, i: nat, error: string)
    requires i < |queued|
  {
    && queued[i] in results && results[queued[i]] == CollectFailed(error)
    && forall j :: 0 <= j < i && queued[j] in results ==> !results[queued[j]].CollectFailed?
  }

  /** What is filed for a report: the two counts of a success, zero where they are missing or negative, or the error. */
  lemma ResultSays(outcome: Outcome)
    ensures match outcome
      case Succeeded(Some(s)) => ResultOf(outcome) == Collected(
        if s.collected.Some? && s.collected.value >= 0 then s.collected.value else 0,
        if s.published.Some? && s.published.value >= 0 then s.published.value else 0)
      case Succeeded(None) => ResultOf(outcome) == Collected(0, 0)
      case Failed(Some(message)) => ResultOf(outcome) == CollectFailed(message)
      case Failed(None) => ResultOf(outcome) == CollectFailed("collection failed")
  {
  }

  /** The first queued source that failed, in queued order. */
  function FirstFailure(queued: seq<Source>, results: map<Source, SourceResult>): (e: Option<string>)
    ensures e.None? <==> forall s :: s in queued && s in results ==> !results[s].CollectFailed?
    ensures e.Some? ==> exists i :: 0 <= i < |queued| && FailsFirst(queued, results, i, e.value)
  {
    if queued == [] then None
    else if queued[0] in results && results[queued[0]].CollectFailed? then
      assert FailsFirst(queued, results, 0, results[queued[0]].error);
      Some(results[queued[0]].error)
    else
      var e := FirstFailure(queued[1..], results);
      if e.None? then None
      else
        assert exists i :: 0 <= i < |queued| && FailsFirst(queued, results, i, e.value) by {
          var i :| 0 <= i < |queued[1..]| && FailsFirst(queued[1..], results, i, e.value);
          assert FailsFirst(queued, results, i + 1, e.value);
        }
        e
  }

  function AdvanceSyncJob(current: Stats, update: Completion): RunView {
    if update.source !in current.queued then
      RunView(current, RunRunning, None, None)
    else
      var stats := current.(results := current.results[update.source := ResultOf(update.outcome)]);
      if !AllFinished(stats) then RunView(stats, RunRunning, None, None)
      else
        var error := FirstFailure(stats.queued, stats.results);
        RunView(stats, if error.None? then RunDone else RunFailed, error, Some(update.finishedAt))
  }

  /** The run row as `requestSync` inserts it. */
  function OpenRun(queued: seq<Source>, at: Instant): RunView {
    RunView(Stats(queued, map[]), if queued == [] then RunDone else RunRunning, None,
            if queued == [] then Some(at) else None)
  }

  /** The row as `requestSync` leaves it when the queue refuses the jobs: some may have been sent. */
  function PublishFailed(view: RunView, error: string, at: Instant): RunView {
    view.(status := RunFailed, error := Some(error), finishedAt := Some(at))
  }

  /** The row after the given completions, in that order. */
  function Replayed(queued: seq<Source>, at: Instant, updates: seq<Completion>): RunView {
    if updates == [] then OpenRun(queued, at)
    else
      var last := |updates| - 1;
      AdvanceSyncJob(Replayed(queued, at, updates[..last]).stats, updates[last])
  }

  // ---------------------------------------------------------------- confluence

  function Sources(updates: seq<Completion>): (r: seq<Source>)
    ensures |r| == |updates|
    ensures forall i :: 0 <= i < |updates| ==> r[i] == updates[i].source
  {
    seq(|updates|, i requires 0 <= i < |updates| => updates[i].source)
  }

  /** Each queued source reports at most once and nobody else reports. */
  predicate Reports(queued: seq<Source>, updates: seq<Completion>) {
    && Distinct(Sources(updates))
    && forall s :: s in Sources(updates) ==> s in queued
  }

  /** What the run row must be, stated without reference to any order of arrival. */
  ghost predicate Settled(queued: seq<Source>, updates: seq<Completion>, view: RunView) {
    && view.stats.queued == queued
    && (forall s :: s in view.stats.results <==> s in Sources(updates))
    && (forall u :: u in updates ==>
          u.source in view.stats.results && view.stats.results[u.source] == ResultOf(u.outcome))
    && (view.status == RunRunning <==> exists s :: s in queued && s !in Sources(updates))
    && (view.status == RunFailed <==>
          !(exists s :: s in queued && s !in Sources(updates)) &&
          exists u :: u in updates && u.outcome.Failed?)
    && (view.status != RunRunning ==> view.error == FirstFailure(queued, view.stats.results))
    && (view.status == RunRunning ==> view.error == None && view.finishedAt == None)
  }

  /** Whatever the order of arrival, the row is the one `Settled` describes: it stays running
      until the last queued source reports, and then fails exactly when some source failed. */
  lemma {:induction false} RunFollowsReports(queued: seq<Source>, at: Instant, updates: seq<Completion>)
    requires queued != [] && Reports(queued, updates)
    ensures Settled(queued, updates, Replayed(queued, at, updates))
  {
    if updates == [] {
      assert queued[0] in queued;
    } else {
      var last := |updates| - 1;
      var before, u := updates[..last], updates[last];
      assert updates == before + [u];
      assert Sources(updates) == Sources(before) + [u.source];
      assert u.source in Sources(updates);
      RunFollowsReports(queued, at, before);
      var view := Replayed(queued, at, updates);
      FailureMeansFailed(queued, updates, view);
    }
  }

  lemma FailureMeansFailed(queued: seq<Source>, updates: seq<Completion>, view: RunView)
    requires Reports(queued, updates)
    requires forall s :: s in view.stats.results <==> s in Sources(updates)
    requires forall u :: u in updates ==>
      u.source in view.stats.results && view.stats.results[u.source] == ResultOf(u.outcome)
    ensures FirstFailure(queued, view.stats.results).Some? <==> exists u :: u in updates && u.outcome.Failed?
  {
    if FirstFailure(queued, view.stats.results).Some? {
      var s :| s in queued && s in view.stats.results && view.stats.results[s].CollectFailed?;
      var i :| 0 <= i < |updates| && Sources(updates)[i] == s;
      assert updates[i] in updates;
    }
    if exists u :: u in updates && u.outcome.Failed? {
      var u :| u in updates && u.outcome.Failed?;
      var i :| 0 <= i < |updates| && updates[i] == u;
      assert Sources(updates)[i] == u.source;
    }
  }

  /** A failure to publish over a settled row leaves it settled only if it says what the reports say. */
  lemma SettledAfterFailure(queued: seq<Source>, updates: seq<Completion>, view: RunView, error: string, at: Instant)
    requires Settled(queued, updates, view)
    ensures Settled(queued, updates, PublishFailed(view, error, at)) <==>
      view.status == RunFailed && view.error == Some(error)
  {
  }

  /** Two orders of the same reports leave the same stats, status and error. */
  lemma Confluence(queued: seq<Source>, at: Instant, one: seq<Completion>, other: seq<Completion>)
    requires queued != [] && Reports(queued, one) && Reports(queued, other)
    requires multiset(one) == multiset(other)
    ensures var a, b := Replayed(queued, at, one), Replayed(queued, at, other);
      a.stats == b.stats && a.status == b.status && a.error == b.error
  {
    RunFollowsReports(queued, at, one);
    RunFollowsReports(queued, at, other);
    forall u ensures u in one <==> u in other {
      assert u in multiset(one) <==> u in multiset(other);
    }
    SettledRunsAgree(queued, one, other, Replayed(queued, at, one), Replayed(queued, at, other));
  }

  /** `Settled` leaves nothing open but the finishing time. */
  lemma SettledRunsAgree(queued: seq<Source>, one: seq<Completion>, other: seq<Completion>, a: RunView, b: RunView)
    requires Settled(queued, one, a) && Settled(queued, other, b)
    requires forall u :: u in one <==> u in other
    ensures a.stats == b.stats && a.status == b.status && a.error == b.error
  {
    SameSources(one, other);
    SameSources(other, one);
    forall s | s in a.stats.results ensures s in b.stats.results && a.stats.results[s] == b.stats.results[s] {
      var i :| 0 <= i < |one| && Sources(one)[i] == s;
      assert one[i] in one;
    }
    assert a.stats.results == b.stats.results;
  }

  lemma SameSources(one: seq<Completion>, other: seq<Completion>)
    requires forall u :: u in one ==> u in other
    ensures forall s :: s in Sources(one) ==> s in Sources(other)
  {
    forall s | s in Sources(one) ensures s in Sources(other) {
      var i :| 0 <= i < |one| && Sources(one)[i] == s;
      assert one[i] in one;
      var j :| 0 <= j < |other| && other[j] == one[i];
      assert Sources(other)[j] == s;
    }
  }
}
