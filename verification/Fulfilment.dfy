/** The worker loop and the destination loop together. Jobs and effects live in one database; a run of `Protocol`
    carries the effect steps of every worker. If results come in time and a job is reported only as the destination
    loop found it, a job that is done has been delivered once to each of its destinations, and stays so. */
module Fulfilment {
  import opened Basics
  import opened Identifiers
  import opened Effects
  import opened Store
  import opened Protocol
  import opened Ledger
  import opened History
  import DispatchHandler
  import EffectRuns

  type Ticket = EffectRuns.Ticket

  /** The effect steps of a run; `tickets[i]` names the claim that step `i` makes or records the result of. */
  function EffectsOf(run: seq<Step>, tickets: seq<Ticket>): seq<EffectRuns.EffectStep>
    requires |tickets| == |run|
  {
    if run == [] then []
    else
      var n := |run| - 1;
      EffectsOf(run[..n], tickets[..n]) + EffectOf(run[n], tickets[n])
  }

  function EffectOf(step: Step, ticket: Ticket): seq<EffectRuns.EffectStep> {
    match step
    case ClaimEffectStep(e, j, now) => [EffectRuns.Claim(ticket, e, j, now)]
    case FinishEffectStep(_, result, now) => [EffectRuns.Record(ticket, result, now)]
    case _ => []
  }

  function Shared(run: seq<Step>, tickets: seq<Ticket>): EffectRuns.EffectSystem
    requires |tickets| == |run|
  {
    EffectRuns.Run(EffectRuns.FRESH, EffectsOf(run, tickets))
  }

  /** Each claim has a ticket of its own, and a result is recorded by whoever was granted the claim on that key. */
  predicate HoldsTicket(s: EffectRuns.EffectSystem, step: Step, ticket: Ticket) {
    && (step.ClaimEffectStep? ==> ticket !in s.grants)
    && (step.FinishEffectStep? ==> ticket in s.grants && s.grants[ticket].key == step.effect)
  }

  predicate Ticketed(run: seq<Step>, tickets: seq<Ticket>) {
    |tickets| == |run| &&
    (run == [] ||
     var n := |run| - 1;
     Ticketed(run[..n], tickets[..n]) && HoldsTicket(Shared(run[..n], tickets[..n]), run[n], tickets[n]))
  }

  /** Only the effect steps touch the effect table. */
  lemma OthersLeaveEffects(s: System, step: Step)
    ensures Apply(s, step).db.effects ==
      match step
      case ClaimEffectStep(e, j, now) => ClaimEffect(s.db.effects, e, j, now)
      case FinishEffectStep(e, result, now) => FinishEffect(s.db.effects, e, result, now)
      case _ => s.db.effects
  {
    if step.FinishStep? && Enabled(s, step) {
      FinishFrame(s.db, s.held[step.lease].body.job.jobId, step.input, step.now);
    }
  }

  lemma SharedMoves(run: seq<Step>, tickets: seq<Ticket>)
    requires |tickets| == |run| && run != []
    ensures var n := |run| - 1;
      var before, effect := Shared(run[..n], tickets[..n]), EffectOf(run[n], tickets[n]);
      Shared(run, tickets) == if effect == [] then before else EffectRuns.Take(before, effect[0])
  {
    var n := |run| - 1;
    var rest, effect := EffectsOf(run[..n], tickets[..n]), EffectOf(run[n], tickets[n]);
    if effect == [] {
      assert rest + effect == rest;
    } else {
      EffectRuns.RunOne(EffectRuns.FRESH, rest, effect[0]);
      assert effect == [effect[0]];
    }
  }

  /** The two machines have one table. */
  lemma {:induction false} OneTable(run: seq<Step>, tickets: seq<Ticket>)
    requires Ticketed(run, tickets)
    ensures Exec(run).db.effects == Shared(run, tickets).table
  {
    if run != [] {
      var n := |run| - 1;
      OneTable(run[..n], tickets[..n]);
      SharedMoves(run, tickets);
      OthersLeaveEffects(Exec(run[..n]), run[n]);
    }
  }

  // ------------------------------------------------- results in time

  /** Results come in time, and the effect steps' clock never goes back. */
  predicate InTime(run: seq<Step>, tickets: seq<Ticket>) {
    Ticketed(run, tickets) && EffectRuns.AllInTime(EffectRuns.FRESH, EffectsOf(run, tickets))
  }

  lemma InTimeBefore(run: seq<Step>, tickets: seq<Ticket>)
    requires InTime(run, tickets) && run != []
    ensures var n := |run| - 1;
      && InTime(run[..n], tickets[..n])
      && (EffectOf(run[n], tickets[n]) != [] ==>
            EffectRuns.InTime(Shared(run[..n], tickets[..n]), EffectOf(run[n], tickets[n])[0]))
  {
    var n := |run| - 1;
    var all, rest, effect := EffectsOf(run, tickets), EffectsOf(run[..n], tickets[..n]), EffectOf(run[n], tickets[n]);
    if effect == [] {
      assert all == rest;
    } else {
      assert all[..|all| - 1] == rest && all[|all| - 1] == effect[0];
    }
  }

  /** A done or uncertain effect is as it was after one more step of the run. */
  lemma FrozenOneMore(run: seq<Step>, tickets: seq<Ticket>, key: EffectKey)
    requires InTime(run, tickets) && run != [] && EffectRuns.FrozenKey(Exec(run[..|run| - 1]).db.effects, key)
    ensures key in Exec(run).db.effects
    ensures Exec(run).db.effects[key] == Exec(run[..|run| - 1]).db.effects[key]
  {
    var n := |run| - 1;
    var before, effect := Shared(run[..n], tickets[..n]), EffectOf(run[n], tickets[n]);
    InTimeBefore(run, tickets);
    OneTable(run[..n], tickets[..n]);
    OneTable(run, tickets);
    SharedMoves(run, tickets);
    EffectRuns.RunKeepsExclusive(EffectRuns.FRESH, EffectsOf(run[..n], tickets[..n]));
    if effect != [] {
      EffectRuns.InTimeFindsItsRow(before, effect[0], key);
      EffectRuns.FrozenStep(before, effect[0], key);
    }
  }

  lemma {:induction false} FrozenStays(run: seq<Step>, tickets: seq<Ticket>, earlier: seq<Step>, key: EffectKey)
    requires InTime(run, tickets) && earlier <= run && EffectRuns.FrozenKey(Exec(earlier).db.effects, key)
    ensures key in Exec(run).db.effects && Exec(run).db.effects[key] == Exec(earlier).db.effects[key]
  {
    if earlier == run {
    } else {
      var n := |run| - 1;
      InTimeBefore(run, tickets);
      FrozenStays(run[..n], tickets[..n], earlier, key);
      FrozenOneMore(run, tickets, key);
    }
  }

  // ----------------------------------------------- reports and destinations

  /** The destinations of an item, by its dedupe key. */
  type Destinations = DedupeKey -> seq<Destination>

  /** What the destination loop came to, as the report says. */
  function OutcomeOf(input: JobResult): DispatchHandler.Outcome {
    match input
    case ReportDone(_) => DispatchHandler.Completed
    case ReportUncertain(reason) => DispatchHandler.UncertainFor(reason)
    case ReportDeferred(retryAt, reason) => DispatchHandler.DeferredFor(reason, retryAt)
    case ReportFailed(c, _, _) => DispatchHandler.Threw(GetOr(c, Permanent))
  }

  /** At some earlier moment of the run the effect table was as the destination loop leaves it with that outcome. */
  ghost predicate Dispatched(run: seq<Step>, job: Job, input: JobResult, destinations: Destinations) {
    exists earlier :: earlier <= run &&
      DispatchHandler.Reported(OutcomeOf(input), job, destinations(job.DedupeKey()), Exec(earlier).db.effects)
  }

  /** The step reports an item's job as the destination loop found it. */
  ghost predicate Honest(run: seq<Step>, step: Step, destinations: Destinations) {
    step.FinishStep? && Enabled(Exec(run), step) && Exec(run).held[step.lease].body.job.DedupeKey().ItemKey? ==>
      Dispatched(run, Exec(run).held[step.lease].body.job, step.input, destinations)
  }

  ghost predicate AllHonest(run: seq<Step>, destinations: Destinations) {
    run == [] || (AllHonest(run[..|run| - 1], destinations) &&
                  Honest(run[..|run| - 1], run[|run| - 1], destinations))
  }

  /** A row ends as done or uncertain only by a report that says so. */
  lemma SettledByReport(s: System, step: Step, k: DedupeKey)
    requires LedgerInv(s.db) && !Settled(s.db.jobs, k) && Settled(Apply(s, step).db.jobs, k)
    ensures step.FinishStep? && Enabled(s, step) && s.held[step.lease].body.job.DedupeKey() == k
    ensures Apply(s, step).db.jobs[k].status == Done ==> step.input.ReportDone?
    ensures Apply(s, step).db.jobs[k].status == Uncertain ==> step.input.ReportUncertain?
  {
    if step.ReplayStep? && Republishes(s, step, step.jobId) {
      PublicationMovesJobs(s, step);
    } else if !step.FinishStep? && !step.ClaimStep? {
      OthersLeaveJobs(s, step);
    }
  }

  /** What a settled row says is what the effects say. */
  ghost predicate Fulfilled(db: Db, k: DedupeKey, destinations: Destinations) {
    k in db.jobs ==>
      && (db.jobs[k].status == Done ==>
            forall d :: d in destinations(k) ==> EffectRuns.IsDone(db.effects, EffectKey(k, d)))
      && (db.jobs[k].status == Uncertain ==>
            exists d :: d in destinations(k) && DispatchHandler.IsUncertain(db.effects, EffectKey(k, d)))
  }

  lemma KeepsFulfilled(run: seq<Step>, tickets: seq<Ticket>, earlier: seq<Step>, k: DedupeKey, job: Job,
                       outcome: DispatchHandler.Outcome, destinations: Destinations)
    requires InTime(run, tickets) && earlier <= run && job.DedupeKey() == k
    requires DispatchHandler.Reported(outcome, job, destinations(k), Exec(earlier).db.effects)
    ensures DispatchHandler.Reported(outcome, job, destinations(k), Exec(run).db.effects)
  {
    forall d | d in destinations(k) && EffectRuns.FrozenKey(Exec(earlier).db.effects, EffectKey(k, d))
      ensures EffectKey(k, d) in Exec(run).db.effects
      ensures Exec(run).db.effects[EffectKey(k, d)] == Exec(earlier).db.effects[EffectKey(k, d)]
    {
      FrozenStays(run, tickets, earlier, EffectKey(k, d));
    }
  }

  lemma FulfilledOneMore(run: seq<Step>, tickets: seq<Ticket>, k: DedupeKey, destinations: Destinations)
    requires InTime(run, tickets) && run != []
    requires Fulfilled(Exec(run[..|run| - 1]).db, k, destinations) && Settled(Exec(run[..|run| - 1]).db.jobs, k)
    ensures Fulfilled(Exec(run).db, k, destinations)
  {
    var before := run[..|run| - 1];
    LedgerInvHolds(before);
    SettledStays(Exec(before), run[|run| - 1], k);
    forall d | d in destinations(k) && EffectRuns.FrozenKey(Exec(before).db.effects, EffectKey(k, d))
      ensures EffectKey(k, d) in Exec(run).db.effects
      ensures Exec(run).db.effects[EffectKey(k, d)] == Exec(before).db.effects[EffectKey(k, d)]
    {
      FrozenOneMore(run, tickets, EffectKey(k, d));
    }
  }

  lemma FulfilledByReport(run: seq<Step>, tickets: seq<Ticket>, k: DedupeKey, destinations: Destinations)
    requires InTime(run, tickets) && AllHonest(run, destinations) && run != [] && k.ItemKey?
    requires !Settled(Exec(run[..|run| - 1]).db.jobs, k) && Settled(Exec(run).db.jobs, k)
    ensures Fulfilled(Exec(run).db, k, destinations)
  {
    var before, step := run[..|run| - 1], run[|run| - 1];
    LedgerInvHolds(before);
    SettledByReport(Exec(before), step, k);
    var job := Exec(before).held[step.lease].body.job;
    assert Dispatched(before, job, step.input, destinations);
    var earlier :| earlier <= before &&
      DispatchHandler.Reported(OutcomeOf(step.input), job, destinations(k), Exec(earlier).db.effects);
    KeepsFulfilled(run, tickets, earlier, k, job, OutcomeOf(step.input), destinations);
  }

  /** In every state of such a run a done item has all its effects done, and an uncertain one has an uncertain effect:
      across crashes, re-claims, duplicates and replays. */
  lemma {:induction false} JobsAreFulfilled(run: seq<Step>, tickets: seq<Ticket>, destinations: Destinations,
                                            k: DedupeKey)
    requires InTime(run, tickets) && AllHonest(run, destinations) && k.ItemKey?
    ensures Fulfilled(Exec(run).db, k, destinations)
  {
    if run != [] {
      var n := |run| - 1;
      InTimeBefore(run, tickets);
      JobsAreFulfilled(run[..n], tickets[..n], destinations, k);
      if Settled(Exec(run[..n]).db.jobs, k) {
        FulfilledOneMore(run, tickets, k, destinations);
      } else if Settled(Exec(run).db.jobs, k) {
        FulfilledByReport(run, tickets, k, destinations);
      }
    }
  }

  /** So to each destination of a done item exactly one delivery is on record as successful in the whole run, and
      never more than one to any destination of any item. */
  lemma DeliveredOnce(run: seq<Step>, tickets: seq<Ticket>, destinations: Destinations, k: DedupeKey, d: Destination)
    requires InTime(run, tickets) && AllHonest(run, destinations) && k.ItemKey?
    ensures EffectRuns.OkCount(EffectsOf(run, tickets), EffectKey(k, d)) <= 1
    ensures k in Exec(run).db.jobs && Exec(run).db.jobs[k].status == Done && d in destinations(k) ==>
      EffectRuns.OkCount(EffectsOf(run, tickets), EffectKey(k, d)) == 1
  {
    JobsAreFulfilled(run, tickets, destinations, k);
    OneTable(run, tickets);
    EffectRuns.AtMostOneOk(EffectsOf(run, tickets), EffectKey(k, d));
  }
}
