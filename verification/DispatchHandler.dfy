/** The destination loop of the job handler (apps/worker/src/job-handler.ts), as one client of the effect
    table among others. What it reports about a job is what the table says for good, as long as nobody has
    recorded a result late and no clock has gone back. */
module DispatchHandler {
  import opened Basics
  import opened Identifiers
  import opened Effects
  import opened EffectRuns

  /** What a call to a destination comes to. */
  datatype Delivery =
    | DeliveredOk
    | OverQuota
    | Refused(beforeWrite: bool, status: Option<int>)
    | DeliveryThrew

  datatype Outcome =
    | Completed
    | DeferredFor(reason: string, retryAt: Instant)
    | UncertainFor(reason: string)
    | Threw(errorClass: ErrorClass)
    | Stopped  // a call to the control plane threw

  /** What asking for a rate limit comes to; the call itself may throw. */
  datatype RateAnswer = RateAllowed | RateRefused(retryAt: Instant) | RateThrew

  /** Everything the loop does not decide: the other clients, time, lost calls, deliveries, rate limits,
      the class `classifyJobFailure` gives to a refusal, and the article job made from a link job. */
  datatype World = World(
    others: nat -> seq<EffectStep>,
    clock: nat -> Instant,
    faults: nat -> Fault,
    deliver: Destination -> Delivery,
    rate: Destination -> RateAnswer,
    batchRate: RateAnswer,
    refusalClass: Destination -> ErrorClass,
    archiveEnabled: bool,
    articleOf: Job -> Job)

  /** This client's claims carry even tickets and everybody else's odd ones. */
  ghost predicate OthersOdd(world: World) {
    forall n, step :: step in world.others(n) ==> step.ticket % 2 == 1
  }

  // -------------------------------------------------------- destinations

  /** A configured channel: its name, whether it is enabled, and the kind it takes. */
  datatype Channel = Channel(name: Destination, enabled: bool, kind: ItemKind)

  predicate Takes(channel: Channel, kind: ItemKind) { channel.enabled && channel.kind == kind }

  function MatchingChannels(channels: seq<Channel>, kind: ItemKind): seq<Destination> {
    if channels == [] then []
    else
      var n := |channels| - 1;
      MatchingChannels(channels[..n], kind) + if Takes(channels[n], kind) then [channels[n].name] else []
  }

  /** The archive comes last. */
  function MatchingDestinations(channels: seq<Channel>, kind: ItemKind, archiveEnabled: bool, archive: Destination):
    seq<Destination>
  {
    MatchingChannels(channels, kind) + if kind == Article && archiveEnabled then [archive] else []
  }

  /** Channel number `at[i]` is where name number `i` comes from: rising, and every channel that takes the kind
      is hit. */
  ghost predicate PicksInOrder(channels: seq<Channel>, kind: ItemKind, at: seq<nat>, names: seq<Destination>) {
    && |at| == |names|
    && (forall i :: 0 <= i < |at| ==> at[i] < |channels| && names[i] == channels[at[i]].name)
    && (forall i, j :: 0 <= i < j < |at| ==> at[i] < at[j])
    && (forall c: nat :: c < |channels| ==> (c in at <==> channels[c].enabled && channels[c].kind == kind))
  }

  lemma {:induction false} ChannelsInOrder(channels: seq<Channel>, kind: ItemKind) returns (at: seq<nat>)
    ensures PicksInOrder(channels, kind, at, MatchingChannels(channels, kind))
  {
    if channels == [] {
      at := [];
    } else {
      var n := |channels| - 1;
      at := ChannelsInOrder(channels[..n], kind);
      if Takes(channels[n], kind) { at := at + [n]; }
    }
  }

  function NamesOf(channels: seq<Channel>): (names: seq<Destination>)
    ensures |names| == |channels| && forall i :: 0 <= i < |channels| ==> names[i] == channels[i].name
  {
    seq(|channels|, i requires 0 <= i < |channels| => channels[i].name)
  }

  /** Exactly the enabled channels of the kind, each once and in channel order, and then the archive for an article
      if it is enabled. */
  lemma DestinationsInOrder(channels: seq<Channel>, kind: ItemKind, archiveEnabled: bool, archive: Destination)
    returns (at: seq<nat>)
    requires Distinct(NamesOf(channels)) && archive !in NamesOf(channels)
    ensures var names := MatchingDestinations(channels, kind, archiveEnabled, archive);
      && Distinct(names) && |at| <= |names| && PicksInOrder(channels, kind, at, names[..|at|])
      && names[|at|..] == if kind == Article && archiveEnabled then [archive] else []
  {
    at := ChannelsInOrder(channels, kind);
    var all, picked := NamesOf(channels), MatchingChannels(channels, kind);
    assert MatchingDestinations(channels, kind, archiveEnabled, archive)[..|at|] == picked;
    forall i, j | 0 <= i < j < |picked| ensures picked[i] != picked[j] {
      assert all[at[i]] != all[at[j]];
    }
    forall i | 0 <= i < |picked| ensures picked[i] != archive { assert all[at[i]] in all; }
  }

  // ------------------------------------------------------------ the client

  predicate IsUncertain(table: EffectTable, key: EffectKey) { key in table && table[key].status == EffectUncertain }

  lemma {:induction false} OthersLeaveMine(s: EffectSystem, steps: seq<EffectStep>)
    requires forall step :: step in steps ==> step.ticket % 2 == 1
    ensures forall t :: t % 2 == 0 ==> (t in Run(s, steps).grants <==> t in s.grants)
    ensures forall t :: t % 2 == 0 && t in s.grants ==> Run(s, steps).grants[t] == s.grants[t]
  {
    if steps != [] {
      OthersLeaveMine(s, steps[..|steps| - 1]);
      assert steps[|steps| - 1] in steps;
    }
  }

  /** What a claim of this client with a new ticket does to the table and the grants, and what its answer says. */
  lemma ClaimTakes(s: EffectSystem, ticket: Ticket, key: EffectKey, jobId: JobId, now: Instant, late: bool)
    requires GrantsHaveRows(s) && (late || Exclusive(s)) && ticket !in s.grants
    ensures var step := Claim(ticket, key, jobId, now);
      var after, later, answer := Take(s, step), late || !InTime(s, step), ClaimEffectAnswer(s.table, key, now);
      && GrantsHaveRows(after) && (later || Exclusive(after)) && FrozenKept(s.table, after.table)
      && after.grants == (if answer.EffectClaimed? then s.grants[ticket := Grant(key, now)] else s.grants)
      && (answer.EffectClaimed? ==> !FrozenKey(s.table, key))
      && (answer.AlreadyDone? ==> IsDone(after.table, key))
      && (answer.AlreadyUncertain? ==> IsUncertain(after.table, key))
      && (answer.EffectBusy? ==> Busy(after.table, key, answer.retryAt))
  {
    var step := Claim(ticket, key, jobId, now);
    if !late && InTime(s, step) { TakeKeepsExclusive(s, step); }
  }

  /** Rows that are done or uncertain are as they were. */
  ghost predicate FrozenKept(before: EffectTable, after: EffectTable) {
    forall key :: FrozenKey(before, key) ==> key in after && after[key] == before[key]
  }

  class EffectClient {
    const world: World
    var system: EffectSystem
    var calls: nat
    var published: seq<Job>
    ghost var started: multiset<EffectKey>  // deliveries this client started
    ghost var late: bool  // somebody has recorded a result late, or a clock went back

    constructor (world: World)
      requires OthersOdd(world)
      ensures this.world == world && Valid({}) && !late && system == FRESH && published == []
    {
      this.world := world;
      system, calls, published, started, late := FRESH, 0, [], multiset{}, false;
    }

    /** `mine` is the claim this client holds, if any. */
    ghost predicate Valid(mine: set<Ticket>)
      reads this
    {
      && OthersOdd(world) && GrantsHaveRows(system) && (!late ==> Exclusive(system))
      && (forall t :: t in mine ==> t in system.grants && t % 2 == 0)
      && (forall t :: t in system.grants && t % 2 == 0 ==> t in mine && t < 2 * calls)
    }

    /** The last call did not come back. */
    ghost predicate LastThrew()
      reads this
    {
      calls > 0 && world.faults(calls - 1) != Fine
    }

    /** Unless somebody records late, frozen rows are kept. */
    twostate predicate KeepsFrozen()
      reads this
    {
      (old(late) ==> late) && (late || FrozenKept(old(system).table, system.table))
    }

    method Interfere(ghost mine: set<Ticket>) returns (now: Instant, fault: Fault)
      requires Valid(mine)
      modifies this
      ensures Valid(mine) && KeepsFrozen() && calls == old(calls) + 1 && started == old(started)
      ensures published == old(published) && fault == world.faults(old(calls))
      ensures forall t :: t in mine ==> system.grants[t] == old(system).grants[t]
    {
      var steps := world.others(calls);
      OthersLeaveMine(system, steps);
      RunKeepsRows(system, steps);
      late := late || !AllInTime(system, steps);
      if !late {
        RunKeepsExclusive(system, steps);
        forall key | FrozenKey(system.table, key)
          ensures key in Run(system, steps).table && Run(system, steps).table[key] == system.table[key]
        {
          FrozenForEver(system, steps, key);
        }
      }
      system := Run(system, steps);
      now, fault := world.clock(calls), world.faults(calls);
      calls := calls + 1;
    }

    /** `None` when the call throws; the claim may have been granted all the same. */
    method ClaimEffect(key: EffectKey, jobId: JobId) returns (answer: Option<EffectAnswer>, ticket: Ticket)
      requires Valid({})
      modifies this
      ensures KeepsFrozen() && started == old(started) && published == old(published)
      ensures calls == old(calls) + 1 && (answer.None? <==> world.faults(old(calls)) != Fine)
      ensures answer.Some? ==> Valid(if answer.value.EffectClaimed? then {ticket} else {})
      ensures answer.Some? && answer.value.EffectClaimed? ==> system.grants[ticket].key == key
      ensures answer.Some? && answer.value.EffectClaimed? ==> late || !FrozenKey(old(system).table, key)
      ensures answer == Some(AlreadyDone) ==> IsDone(system.table, key)
      ensures answer == Some(AlreadyUncertain) ==> IsUncertain(system.table, key)
      ensures answer.Some? && answer.value.EffectBusy? ==> Busy(system.table, key, answer.value.retryAt)
    {
      ticket := 2 * calls;
      var now, fault := Interfere({});
      if fault == LostRequest { return None, ticket; }
      var reply := ClaimEffectAnswer(system.table, key, now);
      var step := Claim(ticket, key, jobId, now);
      ClaimTakes(system, ticket, key, jobId, now, late);
      late := late || !InTime(system, step);
      system := Take(system, step);
      answer := if fault == LostReply then None else Some(reply);
    }

    /** `false` when the call throws; the result may have been recorded all the same. */
    method FinishEffect(ticket: Ticket, result: EffectResult) returns (recorded: bool)
      requires Valid({ticket})
      modifies this
      ensures KeepsFrozen() && started == old(started) && published == old(published)
      ensures recorded <==> !LastThrew()
      ensures recorded ==> Valid({})
      ensures recorded ==> var key := old(system).grants[ticket].key;
        key in system.table && system.table[key].status == StatusOf(result)
    {
      ghost var key := system.grants[ticket].key;
      var now, fault := Interfere({ticket});
      if fault == LostRequest { return false; }
      var step := Record(ticket, result, now);
      late := late || !InTime(system, step);
      if !late {
        TakeKeepsExclusive(system, step);
        InTimeFindsItsRow(system, step, key);
      }
      system := Take(system, step);
      recorded := fault == Fine;
    }

    /** `publishJobs` of one job. */
    method Publish(job: Job) returns (ok: bool)
      requires Valid({})
      modifies this
      ensures Valid({}) && KeepsFrozen() && started == old(started)
      ensures ok <==> !LastThrew()
      ensures published == old(published) + [job] || (!ok && published == old(published))
    {
      var _, fault := Interfere({});
      if fault == LostRequest { return false; }
      published := published + [job];
      ok := fault == Fine;
    }
  }

  /** Somebody's claim on the key is good up to `retryAt`. */
  predicate Busy(table: EffectTable, key: EffectKey, retryAt: Instant) {
    key in table && table[key].status == EffectProcessing && retryAt == table[key].updatedAt + STALE_MS
  }

  function KeyFor(job: Job, destination: Destination): EffectKey { EffectKey(job.DedupeKey(), destination) }

  /** Before a delivery that is not an article's the destination's rate limit is asked for. */
  function RateFor(world: World, job: Job, d: Destination): RateAnswer {
    if job.IsArticle() then RateAllowed else world.rate(d)
  }

  /** What a delivery comes to. One that may have written although no success came back is never made again; one
      that certainly did not write fails the job, which may be tried again. */
  ghost predicate Delivered(outcome: Option<Outcome>, world: World, d: Destination, threw: bool) {
    if threw then outcome == Some(Stopped)
    else
      match world.deliver(d)
      case DeliveredOk => outcome == None
      case OverQuota => outcome == Some(Threw(Retryable))
      case DeliveryThrew => outcome == Some(UncertainFor("external_delivery_uncertain"))
      case Refused(beforeWrite, status) =>
        if beforeWrite || (status.Some? && status.value < 500) then outcome == Some(Threw(world.refusalClass(d)))
        else outcome == Some(UncertainFor("external_delivery_uncertain"))
  }

  /** A delivery that threw, or that was refused with no status or with 500 and above and not before the write, ends
      uncertain; the job fails for any other refusal; nothing but a success goes on. */
  lemma DoubtExactly(outcome: Option<Outcome>, world: World, d: Destination)
    requires Delivered(outcome, world, d, false)
    ensures outcome.None? <==> world.deliver(d) == DeliveredOk
    ensures outcome.Some? && outcome.value.UncertainFor? <==>
      world.deliver(d) == DeliveryThrew || world.deliver(d) == Refused(false, None) ||
      exists status :: world.deliver(d) == Refused(false, Some(status)) && status > 499
    ensures outcome.Some? ==> outcome.value.UncertainFor? || outcome.value.Threw?
    ensures world.deliver(d) == OverQuota ==> outcome == Some(Threw(Retryable))
    ensures world.deliver(d).Refused? && outcome.Some? && outcome.value.Threw? ==>
      outcome == Some(Threw(world.refusalClass(d)))
  {
    if world.deliver(d).Refused? && world.deliver(d).status.Some? && world.deliver(d).status.value > 499 {
      assert world.deliver(d) == Refused(world.deliver(d).beforeWrite, Some(world.deliver(d).status.value));
    }
  }

  predicate HasStatus(table: EffectTable, key: EffectKey, status: EffectStatus) {
    key in table && table[key].status == status
  }

  /** What the loop may answer on account of one destination. */
  ghost predicate Justified(outcome: Outcome, world: World, job: Job, d: Destination, table: EffectTable, threw: bool) {
    match outcome
    case Completed => false
    case DeferredFor(reason, retryAt) => reason == "effect_busy" && Busy(table, KeyFor(job, d), retryAt)
    case UncertainFor(_) => IsUncertain(table, KeyFor(job, d))
    case Threw(c) =>
      if RateFor(world, job, d).RateRefused? then c == Retryable
      else Delivered(Some(outcome), world, d, threw) && HasStatus(table, KeyFor(job, d), EffectFailed)
    case Stopped => threw || RateFor(world, job, d).RateThrew?
  }

  /** What the outcome of one granted destination says, and its row. `None` goes on. */
  ghost predicate Tells(outcome: Option<Outcome>, world: World, job: Job, d: Destination, table: EffectTable,
                        threw: bool) {
    if outcome.None? then IsDone(table, KeyFor(job, d)) else Justified(outcome.value, world, job, d, table, threw)
  }

  /** One granted destination that may be delivered: deliver and record. */
  method DeliverAndRecord(client: EffectClient, job: Job, destination: Destination, ticket: Ticket)
    returns (outcome: Option<Outcome>)
    requires client.Valid({ticket}) && client.system.grants[ticket].key == KeyFor(job, destination)
    modifies client
    ensures client.KeepsFrozen() && client.published == old(client.published)
    ensures client.started == old(client.started) + multiset{KeyFor(job, destination)}
    ensures Delivered(outcome, client.world, destination, client.LastThrew())
    ensures !client.LastThrew() ==>
      && client.Valid({})
      && HasStatus(client.system.table, KeyFor(job, destination),
                   if outcome.None? then EffectDone
                   else if outcome.value.UncertainFor? then EffectUncertain
                   else EffectFailed)
  {
    client.started := client.started + multiset{KeyFor(job, destination)};
    var delivery := client.world.deliver(destination);
    var recorded;
    match delivery {
      case DeliveryThrew =>
        recorded := client.FinishEffect(ticket, RecordUncertain("external delivery outcome uncertain"));
        outcome := Some(UncertainFor("external_delivery_uncertain"));
      case DeliveredOk =>
        recorded := client.FinishEffect(ticket, RecordDone);
        outcome := None;
      case OverQuota =>
        recorded := client.FinishEffect(ticket, RecordFailed(Retryable, "destination quota unavailable"));
        outcome := Some(Threw(Retryable));
      case Refused(beforeWrite, status) =>
        var errorClass := client.world.refusalClass(destination);
        if !beforeWrite && (status.None? || status.value >= 500) {
          recorded := client.FinishEffect(ticket, RecordUncertain("external delivery outcome uncertain"));
          outcome := Some(UncertainFor("external_delivery_uncertain"));
        } else {
          recorded := client.FinishEffect(ticket, RecordFailed(errorClass, "destination rejected request"));
          outcome := Some(Threw(errorClass));
        }
    }
    if !recorded { outcome := Some(Stopped); }
  }

  /** One granted destination. A claim stopped by a rate limit, or by the question for it, stays until it is stale. */
  method DeliverClaimed(client: EffectClient, job: Job, destination: Destination, ticket: Ticket)
    returns (outcome: Option<Outcome>)
    requires client.Valid({ticket}) && client.system.grants[ticket].key == KeyFor(job, destination)
    modifies client
    ensures client.KeepsFrozen() && client.published == old(client.published)
    ensures client.started == old(client.started) +
      if RateFor(client.world, job, destination).RateAllowed? then multiset{KeyFor(job, destination)} else multiset{}
    ensures Tells(outcome, client.world, job, destination, client.system.table, client.LastThrew())
    ensures RateFor(client.world, job, destination).RateAllowed? ==>
      Delivered(outcome, client.world, destination, client.LastThrew())
    ensures outcome.None? || outcome.value.UncertainFor? ==> client.Valid({})
    ensures outcome.Some? ==> !outcome.value.DeferredFor?
  {
    if !job.IsArticle() {
      match client.world.rate(destination) {
        case RateRefused(_) => return Some(Threw(Retryable));
        case RateThrew => return Some(Stopped);
        case RateAllowed =>
      }
    }
    outcome := DeliverAndRecord(client, job, destination, ticket);
  }

  /** One turn of the loop. `None` means go on with the next destination: this one was done already, or is now.
      A key that somebody else holds defers the job until that claim runs out. */
  method HandleDestination(client: EffectClient, job: Job, destination: Destination) returns (outcome: Option<Outcome>)
    requires client.Valid({})
    modifies client
    ensures client.KeepsFrozen() && client.published == old(client.published)
    ensures Tells(outcome, client.world, job, destination, client.system.table, client.LastThrew())
    ensures outcome.None? || outcome.value.DeferredFor? || outcome.value.UncertainFor? ==> client.Valid({})
    ensures client.started != old(client.started) ==>
      && client.started == old(client.started) + multiset{KeyFor(job, destination)}
      && (client.late || !FrozenKey(old(client.system).table, KeyFor(job, destination)))
      && RateFor(client.world, job, destination).RateAllowed?
      && Delivered(outcome, client.world, destination, client.LastThrew())
  {
    var claim, ticket := client.ClaimEffect(KeyFor(job, destination), job.jobId);
    match claim {
      case None => return Some(Stopped);
      case Some(AlreadyDone) => return None;
      case Some(AlreadyUncertain) => return Some(UncertainFor("effect_uncertain"));
      case Some(EffectBusy(retryAt)) => return Some(DeferredFor("effect_busy", retryAt));
      case Some(EffectClaimed(_)) => outcome := DeliverClaimed(client, job, destination, ticket);
    }
  }

  /** What the handler promises about the effect table when it returns, as long as nobody has recorded late.
      `Threw` and `Stopped` promise nothing beyond what every step keeps. */
  ghost predicate Reported(outcome: Outcome, job: Job, destinations: seq<Destination>, table: EffectTable) {
    && (outcome.Completed? ==> forall d :: d in destinations ==> IsDone(table, KeyFor(job, d)))
    && (outcome.UncertainFor? ==> exists d :: d in destinations && IsUncertain(table, KeyFor(job, d)))
  }

  /** Of the first `i` destinations each was started at most once and, unless somebody has recorded late, none
      that was frozen; and nothing else was. */
  ghost predicate StartedOnce(before: multiset<EffectKey>, now: multiset<EffectKey>, table: EffectTable, late: bool,
                              job: Job, destinations: seq<Destination>, i: nat) {
    && before <= now && (forall key :: now[key] <= before[key] + 1)
    && (forall key :: now[key] > before[key] ==>
          (late || !FrozenKey(table, key)) &&
          exists k :: 0 <= k < i <= |destinations| && key == KeyFor(job, destinations[k]))
  }

  predicate AllDone(table: EffectTable, job: Job, destinations: seq<Destination>, i: nat) {
    forall k :: 0 <= k < i && k < |destinations| ==> IsDone(table, KeyFor(job, destinations[k]))
  }

  /** Where the loop stands before destination number `i`. */
  ghost predicate SoFar(before: multiset<EffectKey>, now: multiset<EffectKey>, first: EffectTable, table: EffectTable,
                        late: bool, job: Job, destinations: seq<Destination>, i: nat) {
    && (late || (FrozenKept(first, table) && AllDone(table, job, destinations, i)))
    && StartedOnce(before, now, first, late, job, destinations, i)
  }

  lemma {:induction false} StartedOneMore(before: multiset<EffectKey>, started: multiset<EffectKey>, first: EffectTable,
                                          table: EffectTable, late: bool, job: Job, destinations: seq<Destination>,
                                          i: nat)
    requires i < |destinations| && Distinct(destinations)
    requires StartedOnce(before, started, first, late, job, destinations, i)
    requires late || (FrozenKept(first, table) && !FrozenKey(table, KeyFor(job, destinations[i])))
    ensures StartedOnce(before, started + multiset{KeyFor(job, destinations[i])}, first, late, job, destinations, i + 1)
  {
  }

  lemma {:induction false} StartedFew(before: multiset<EffectKey>, now: multiset<EffectKey>, first: EffectTable,
                                      late: bool, later: bool, job: Job, destinations: seq<Destination>, i: nat, n: nat)
    requires i <= n <= |destinations| && StartedOnce(before, now, first, late, job, destinations, i) && (late ==> later)
    ensures StartedOnce(before, now, first, later, job, destinations, n)
  {
  }

  /** Where the loop stands after the turn of destination number `i`. */
  ghost predicate TurnTaken(before: multiset<EffectKey>, now: multiset<EffectKey>, first: EffectTable,
                            table: EffectTable, late: bool, job: Job, destinations: seq<Destination>, i: nat) {
    && (late || (FrozenKept(first, table) && AllDone(table, job, destinations, i)))
    && StartedOnce(before, now, first, late, job, destinations, i + 1)
  }

  lemma {:induction false} OneTurn(before: multiset<EffectKey>, now: multiset<EffectKey>, next: multiset<EffectKey>,
                                   first: EffectTable, table: EffectTable, after: EffectTable, late: bool, later: bool,
                                   job: Job, destinations: seq<Destination>, i: nat)
    requires i < |destinations| && Distinct(destinations)
    requires SoFar(before, now, first, table, late, job, destinations, i)
    requires (late ==> later) && (later || FrozenKept(table, after))
    requires next != now ==>
      && next == now + multiset{KeyFor(job, destinations[i])}
      && (later || !FrozenKey(table, KeyFor(job, destinations[i])))
    ensures TurnTaken(before, next, first, after, later, job, destinations, i)
    ensures IsDone(after, KeyFor(job, destinations[i])) ==>
      SoFar(before, next, first, after, later, job, destinations, i + 1)
  {
    if next != now {
      StartedFew(before, now, first, late, later, job, destinations, i, i);
      StartedOneMore(before, now, first, table, later, job, destinations, i);
    } else {
      StartedFew(before, now, first, late, later, job, destinations, i, i + 1);
    }
  }

  /** The loop stops at destination number `at`, where the outcome comes from; the ones before it are done. */
  ghost predicate StoppedAt(outcome: Outcome, world: World, job: Job, destinations: seq<Destination>, at: nat,
                            table: EffectTable, late: bool, threw: bool) {
    && at < |destinations|
    && (late || AllDone(table, job, destinations, at))
    && Justified(outcome, world, job, destinations[at], table, threw)
  }

  /** The loop. `None` means that all destinations are done. */
  method DeliverAll(client: EffectClient, job: Job, destinations: seq<Destination>)
    returns (outcome: Option<Outcome>, ghost at: nat)
    requires client.Valid({}) && Distinct(destinations)
    modifies client
    ensures client.KeepsFrozen() && client.published == old(client.published)
    ensures outcome.None? ==> client.Valid({}) && at == |destinations|
    ensures outcome.None? ==> client.late || AllDone(client.system.table, job, destinations, |destinations|)
    ensures outcome.Some? ==>
      && StoppedAt(outcome.value, client.world, job, destinations, at, client.system.table, client.late,
                   client.LastThrew())
      && (outcome.value.DeferredFor? || outcome.value.UncertainFor? ==> client.Valid({}))
    ensures at <= |destinations|
    ensures StartedOnce(old(client.started), client.started, old(client.system).table, client.late, job, destinations,
                        if at == |destinations| then at else at + 1)
  {
    ghost var first, before := client.system.table, client.started;
    at := 0;
    for i := 0 to |destinations|
      invariant at == i && client.Valid({}) && client.published == old(client.published)
      invariant (old(client.late) ==> client.late) && (client.late || FrozenKept(first, client.system.table))
      invariant SoFar(before, client.started, first, client.system.table, client.late, job, destinations, i)
    {
      ghost var table, started, late := client.system.table, client.started, client.late;
      var result := HandleDestination(client, job, destinations[i]);
      OneTurn(before, started, client.started, first, table, client.system.table, late, client.late, job, destinations,
              i);
      if result.Some? { return result, i; }
      at := i + 1;
    }
    outcome := None;
  }

  /** The articles of a batch ask for one limit before the first destination, if there is one. */
  predicate BatchStops(world: World, job: Job, destinations: seq<Destination>) {
    job.IsArticle() && |destinations| > 0 && !world.batchRate.RateAllowed?
  }

  /** The loop, and the article job that follows a link. "Completed" means every destination is done and stays
      done; any other outcome comes from the batch limit, from one destination behind others that are done, or from
      a publication that threw. Nothing behind that destination is delivered to, nothing twice, and nothing that
      was already done or uncertain. */
  method Dispatch(client: EffectClient, job: Job, destinations: seq<Destination>)
    returns (outcome: Outcome, ghost at: nat)
    requires client.Valid({}) && Distinct(destinations)
    modifies client
    ensures client.KeepsFrozen()
    ensures client.late || Reported(outcome, job, destinations, client.system.table)
    ensures outcome.Completed? || outcome.DeferredFor? || outcome.UncertainFor? ==> client.Valid({})
    ensures at <= |destinations|
    ensures StartedOnce(old(client.started), client.started, old(client.system).table, client.late, job, destinations,
                        if at == |destinations| then at else at + 1)
    ensures BatchStops(client.world, job, destinations) ==>
      client.started == old(client.started) &&
      outcome == (match client.world.batchRate
                  case RateRefused(retryAt) => DeferredFor("rate_limit", retryAt)
                  case _ => Stopped)
    ensures
      || outcome.Completed?
      || BatchStops(client.world, job, destinations)
      || StoppedAt(outcome, client.world, job, destinations, at, client.system.table, client.late, client.LastThrew())
      || (outcome.Stopped? && client.LastThrew() && Follows(client.world, job) != [])
    ensures outcome.Completed? ==>
      client.published == old(client.published) + Follows(client.world, job)
    ensures !outcome.Completed? && !outcome.Stopped? ==> client.published == old(client.published)
  {
    at := 0;
    if job.IsArticle() && |destinations| > 0 {
      match client.world.batchRate {
        case RateRefused(retryAt) => return DeferredFor("rate_limit", retryAt), 0;
        case RateThrew => return Stopped, 0;
        case RateAllowed =>
      }
    }
    var stopped;
    stopped, at := DeliverAll(client, job, destinations);
    if stopped.Some? { return stopped.value, at; }
    if job.kind == DispatchItem(Link) && client.world.archiveEnabled {
      var ok := client.Publish(client.world.articleOf(job));
      if !ok { return Stopped, at; }
    }
    return Completed, at;
  }

  /** A delivered link is followed by the job that archives the page behind it. */
  function Follows(world: World, job: Job): seq<Job> {
    if job.kind == DispatchItem(Link) && world.archiveEnabled then [world.articleOf(job)] else []
  }
}
