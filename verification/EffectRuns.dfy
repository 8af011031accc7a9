/** External side effects over time. A claim is a lease of ten minutes with no token in the table, and recording
    a result does not look at the row. Runs here are all runs, late results and clocks that disagree included. What
    every one of them keeps is a balance: recorded successes, less one while the row is done, are the records that
    found the row done. Runs with one clock in which no result is recorded late have no such record. */
module EffectRuns {
  import opened Basics
  import opened Identifiers
  import opened Effects

  /** Who was granted a claim, on which key and when. */
  datatype Grant = Grant(key: EffectKey, at: Instant)

  type Ticket = nat

  /** `grants` holds the claims whose result has not been recorded, `clock` what the last step's clock showed. */
  datatype EffectSystem = EffectSystem(table: EffectTable, clock: Instant, grants: map<Ticket, Grant>)

  datatype EffectStep =
    | Claim(ticket: Ticket, key: EffectKey, jobId: JobId, now: Instant)
    | Record(ticket: Ticket, result: EffectResult, now: Instant)

  predicate StepEnabled(s: EffectSystem, step: EffectStep) { step.Claim? <==> step.ticket !in s.grants }

  /** The claim is granted: a delivery for the key starts. */
  predicate Granted(s: EffectSystem, step: EffectStep, key: EffectKey) {
    step.Claim? && step.key == key && StepEnabled(s, step) && ClaimEffectAnswer(s.table, key, step.now).EffectClaimed?
  }

  function Take(s: EffectSystem, step: EffectStep): EffectSystem {
    if !StepEnabled(s, step) then s
    else
      match step
      case Claim(ticket, key, jobId, now) =>
        EffectSystem(ClaimEffect(s.table, key, jobId, now), now,
                     if ClaimEffectAnswer(s.table, key, now).EffectClaimed?
                     then s.grants[ticket := Grant(key, now)] else s.grants)
      case Record(ticket, result, now) =>
        EffectSystem(FinishEffect(s.table, s.grants[ticket].key, result, now), now, s.grants - {ticket})
  }

  function Run(s: EffectSystem, steps: seq<EffectStep>): EffectSystem {
    if steps == [] then s else Take(Run(s, steps[..|steps| - 1]), steps[|steps| - 1])
  }

  const FRESH: EffectSystem := EffectSystem(map[], 0, map[])

  predicate IsDone(table: EffectTable, key: EffectKey) { key in table && table[key].status == EffectDone }

  predicate FrozenKey(table: EffectTable, key: EffectKey) { key in table && Frozen(table[key].status) }

  /** A result for this key is recorded. */
  predicate Records(s: EffectSystem, step: EffectStep, key: EffectKey) {
    step.Record? && StepEnabled(s, step) && s.grants[step.ticket].key == key
  }

  predicate RecordsOk(s: EffectSystem, step: EffectStep, key: EffectKey) {
    Records(s, step, key) && step.result == RecordDone
  }

  /** A result is recorded over a row that was done already. */
  predicate Overwrites(s: EffectSystem, step: EffectStep, key: EffectKey) {
    Records(s, step, key) && IsDone(s.table, key)
  }

  function OkCount(steps: seq<EffectStep>, key: EffectKey): nat {
    if steps == [] then 0
    else
      var before := steps[..|steps| - 1];
      OkCount(before, key) + if RecordsOk(Run(FRESH, before), steps[|steps| - 1], key) then 1 else 0
  }

  function OverwriteCount(steps: seq<EffectStep>, key: EffectKey): nat {
    if steps == [] then 0
    else
      var before := steps[..|steps| - 1];
      OverwriteCount(before, key) + if Overwrites(Run(FRESH, before), steps[|steps| - 1], key) then 1 else 0
  }

  function One(b: bool): nat { if b then 1 else 0 }

  // ------------------------------------------------- the law of every run

  /** Whoever holds a claim has a row to record on. */
  ghost predicate GrantsHaveRows(s: EffectSystem) { forall t :: t in s.grants ==> s.grants[t].key in s.table }

  lemma {:induction false} RunKeepsRows(s: EffectSystem, steps: seq<EffectStep>)
    requires GrantsHaveRows(s)
    ensures GrantsHaveRows(Run(s, steps)) && s.table.Keys <= Run(s, steps).table.Keys
  {
    if steps != [] { RunKeepsRows(s, steps[..|steps| - 1]); }
  }

  /** A step keeps the number of successes equal to whether the row is done, exactly if it does not record a
      result over a done row. */
  lemma StepKeepsBalance(s: EffectSystem, step: EffectStep, key: EffectKey, oks: nat)
    requires GrantsHaveRows(s) && oks == One(IsDone(s.table, key))
    ensures oks + One(RecordsOk(s, step, key)) == One(IsDone(Take(s, step).table, key)) <==> !Overwrites(s, step, key)
  {
  }

  /** Recorded successes are the one the row shows, if it is done, and one for every record that found the row
      done: whatever the clocks, crashes, re-claims and replays. */
  lemma {:induction false} OksAreDoneAndOverwrites(steps: seq<EffectStep>, key: EffectKey)
    ensures OkCount(steps, key) == One(IsDone(Run(FRESH, steps).table, key)) + OverwriteCount(steps, key)
  {
    if steps != [] {
      var before := steps[..|steps| - 1];
      OksAreDoneAndOverwrites(before, key);
      RunKeepsRows(FRESH, before);
    }
  }

  /** So at most one success is recorded for a key exactly if no record ever finds its row done, or just one does and
      the row is not done in the end. */
  lemma AtMostOneExactlyWhen(steps: seq<EffectStep>, key: EffectKey)
    ensures OkCount(steps, key) <= 1 <==>
      OverwriteCount(steps, key) == 0 ||
      (OverwriteCount(steps, key) == 1 && !IsDone(Run(FRESH, steps).table, key))
  {
    OksAreDoneAndOverwrites(steps, key);
  }

  // ------------------------------------------------- done and uncertain rows

  /** A failure is recorded for the key. */
  predicate RecordsFailure(s: EffectSystem, step: EffectStep, key: EffectKey) {
    Records(s, step, key) && step.result.RecordFailed?
  }

  /** A result other than what the row shows is recorded. */
  predicate Contradicts(s: EffectSystem, step: EffectStep, key: EffectKey) {
    Records(s, step, key) && (key in s.table ==> StatusOf(step.result) != s.table[key].status)
  }

  /** A done or uncertain key stays frozen exactly if the step records no failure for it, and keeps its very status
      exactly if the step records nothing else. A step that records nothing for it leaves the row as it is. */
  lemma FrozenStep(s: EffectSystem, step: EffectStep, key: EffectKey)
    requires FrozenKey(s.table, key)
    ensures key in Take(s, step).table
    ensures FrozenKey(Take(s, step).table, key) <==> !RecordsFailure(s, step, key)
    ensures Take(s, step).table[key].status == s.table[key].status <==> !Contradicts(s, step, key)
    ensures !Records(s, step, key) ==> Take(s, step).table[key] == s.table[key]
  {
  }

  /** No delivery starts for a frozen key, and after a step the next claim is granted exactly if that step recorded
      a failure for the key. */
  lemma NextClaim(s: EffectSystem, step: EffectStep, claim: EffectStep, key: EffectKey)
    requires FrozenKey(s.table, key)
    requires claim.Claim? && claim.key == key && StepEnabled(Take(s, step), claim)
    ensures !Granted(s, step, key)
    ensures Granted(Take(s, step), claim, key) <==> RecordsFailure(s, step, key)
  {
    FrozenStep(s, step, key);
  }

  predicate FrozenThroughout(s: EffectSystem, steps: seq<EffectStep>, key: EffectKey) {
    FrozenKey(Run(s, steps).table, key) && (steps == [] || FrozenThroughout(s, steps[..|steps| - 1], key))
  }

  predicate NoFailure(s: EffectSystem, steps: seq<EffectStep>, key: EffectKey) {
    steps == [] ||
    (NoFailure(s, steps[..|steps| - 1], key) &&
     !RecordsFailure(Run(s, steps[..|steps| - 1]), steps[|steps| - 1], key))
  }

  /** A done or uncertain key stays frozen through a run exactly if no step of the run records a failure for it. */
  lemma {:induction false} FrozenExactlyWhen(s: EffectSystem, steps: seq<EffectStep>, key: EffectKey)
    requires FrozenKey(s.table, key)
    ensures FrozenThroughout(s, steps, key) <==> NoFailure(s, steps, key)
  {
    if steps != [] {
      var before, step := steps[..|steps| - 1], steps[|steps| - 1];
      FrozenExactlyWhen(s, before, key);
      if FrozenThroughout(s, before, key) { FrozenStep(Run(s, before), step, key); }
    }
  }

  predicate HasStatus(table: EffectTable, key: EffectKey, status: EffectStatus) {
    key in table && table[key].status == status
  }

  predicate StatusThroughout(s: EffectSystem, steps: seq<EffectStep>, key: EffectKey, status: EffectStatus) {
    HasStatus(Run(s, steps).table, key, status) &&
    (steps == [] || StatusThroughout(s, steps[..|steps| - 1], key, status))
  }

  /** No step of the run records another result. */
  predicate NothingElse(s: EffectSystem, steps: seq<EffectStep>, key: EffectKey, status: EffectStatus) {
    steps == [] ||
    (NothingElse(s, steps[..|steps| - 1], key, status) &&
     (Records(Run(s, steps[..|steps| - 1]), steps[|steps| - 1], key) ==>
        StatusOf(steps[|steps| - 1].result) == status))
  }

  /** A done key stays done through a run, and an uncertain one uncertain, exactly if no step of the run records
      anything else for it. */
  lemma {:induction false} StatusExactlyWhen(s: EffectSystem, steps: seq<EffectStep>, key: EffectKey,
                                             status: EffectStatus)
    requires HasStatus(s.table, key, status) && Frozen(status)
    ensures StatusThroughout(s, steps, key, status) <==> NothingElse(s, steps, key, status)
  {
    if steps != [] {
      var before, step := steps[..|steps| - 1], steps[|steps| - 1];
      StatusExactlyWhen(s, before, key, status);
      if StatusThroughout(s, before, key, status) { FrozenStep(Run(s, before), step, key); }
    }
  }

  // ------------------------------------------------ runs without late results

  predicate Timely(g: Grant, now: Instant) { now - g.at <= STALE_MS }

  /** The clock has not gone back, and a result is recorded within ten minutes of its claim. */
  predicate InTime(s: EffectSystem, step: EffectStep) {
    StepEnabled(s, step) ==> (step.now >= s.clock && (step.Record? ==> Timely(s.grants[step.ticket], step.now)))
  }

  /** The clock never goes back, and every claimer of the run records its result within ten minutes or never. */
  predicate AllInTime(s: EffectSystem, steps: seq<EffectStep>) {
    steps == [] ||
    (AllInTime(s, steps[..|steps| - 1]) && InTime(Run(s, steps[..|steps| - 1]), steps[|steps| - 1]))
  }

  /** A claim that may still be recorded. */
  predicate Live(s: EffectSystem, t: Ticket) { t in s.grants && Timely(s.grants[t], s.clock) }

  ghost predicate Exclusive(s: EffectSystem) {
    && (forall t :: Live(s, t) ==>
          s.grants[t].key in s.table && s.table[s.grants[t].key].status == EffectProcessing &&
          s.table[s.grants[t].key].updatedAt == s.grants[t].at)
    && (forall a, b :: Live(s, a) && Live(s, b) && s.grants[a].key == s.grants[b].key ==> a == b)
  }

  lemma TakeKeepsExclusive(s: EffectSystem, step: EffectStep)
    requires Exclusive(s) && InTime(s, step)
    ensures Exclusive(Take(s, step))
  {
    if StepEnabled(s, step) {
      var after := Take(s, step);
      forall t | Live(after, t) && t in s.grants ensures Live(s, t) {}
    }
  }

  lemma {:induction false} RunKeepsExclusive(s: EffectSystem, steps: seq<EffectStep>)
    requires Exclusive(s) && AllInTime(s, steps)
    ensures Exclusive(Run(s, steps)) && s.clock <= Run(s, steps).clock
  {
    if steps != [] {
      RunKeepsExclusive(s, steps[..|steps| - 1]);
      TakeKeepsExclusive(Run(s, steps[..|steps| - 1]), steps[|steps| - 1]);
    }
  }

  /** At most one live holder per effect key. */
  lemma OneHolder(steps: seq<EffectStep>, a: Ticket, b: Ticket)
    requires AllInTime(FRESH, steps)
    requires Live(Run(FRESH, steps), a) && Live(Run(FRESH, steps), b)
    requires Run(FRESH, steps).grants[a].key == Run(FRESH, steps).grants[b].key
    ensures a == b
  {
    RunKeepsExclusive(FRESH, steps);
  }

  /** A result in time finds its own row, still being processed. */
  lemma InTimeFindsItsRow(s: EffectSystem, step: EffectStep, key: EffectKey)
    requires Exclusive(s) && InTime(s, step)
    ensures Records(s, step, key) ==> !FrozenKey(s.table, key)
  {
    if Records(s, step, key) { assert Live(s, step.ticket); }
  }

  /** So nothing is recorded for a frozen key any more: it stays frozen, its row stays as it is, and no delivery
      starts for it. */
  lemma {:induction false} FrozenForEver(s: EffectSystem, steps: seq<EffectStep>, key: EffectKey)
    requires Exclusive(s) && FrozenKey(s.table, key) && AllInTime(s, steps)
    ensures FrozenThroughout(s, steps, key) && NoFailure(s, steps, key)
    ensures key in Run(s, steps).table && Run(s, steps).table[key] == s.table[key]
    ensures forall step :: !Granted(Run(s, steps), step, key)
  {
    if steps != [] {
      var rest := steps[..|steps| - 1];
      var before, step := Run(s, rest), steps[|steps| - 1];
      FrozenForEver(s, rest, key);
      RunKeepsExclusive(s, rest);
      InTimeFindsItsRow(before, step, key);
      FrozenStep(before, step, key);
    }
    FrozenExactlyWhen(s, steps, key);
  }

  /** Without late results no record finds the row done, so at most one delivery per key is ever recorded as
      successful, and the row is done exactly when one was. */
  lemma {:induction false} AtMostOneOk(steps: seq<EffectStep>, key: EffectKey)
    requires AllInTime(FRESH, steps)
    ensures OverwriteCount(steps, key) == 0
    ensures OkCount(steps, key) == One(IsDone(Run(FRESH, steps).table, key))
  {
    if steps != [] {
      var before := steps[..|steps| - 1];
      AtMostOneOk(before, key);
      RunKeepsExclusive(FRESH, before);
      InTimeFindsItsRow(Run(FRESH, before), steps[|steps| - 1], key);
    }
    OksAreDoneAndOverwrites(steps, key);
  }

  /** The answer to a claim for an effect that has a row. */
  lemma AnswersExactly(table: EffectTable, key: EffectKey, now: Instant)
    requires key in table
    ensures var row, answer := table[key], ClaimEffectAnswer(table, key, now);
      && (answer == AlreadyDone <==> row.status == EffectDone)
      && (answer == AlreadyUncertain <==> row.status == EffectUncertain)
      && (answer.EffectBusy? <==> row.status == EffectProcessing && now - row.updatedAt <= 600_000)
      && (answer.EffectBusy? ==> answer.retryAt == row.updatedAt + 600_000)
      && (answer.EffectClaimed? ==> answer.attempts == row.attempts + 1)
  {
  }

  /** A busy answer names the instant up to which the key stays busy unless its holder records a result:
      it is refused then, and granted a millisecond later. */
  lemma BusyUntil(table: EffectTable, key: EffectKey, now: Instant, later: Instant)
    requires ClaimEffectAnswer(table, key, now).EffectBusy? && later >= now
    ensures ClaimEffectAnswer(table, key, later).EffectClaimed? <==> later > ClaimEffectAnswer(table, key, now).retryAt
  {
  }

  // --------------------------------------------------------- runs that break it

  lemma RunOne(s: EffectSystem, steps: seq<EffectStep>, step: EffectStep)
    ensures Run(s, steps + [step]) == Take(Run(s, steps), step)
  {
    assert (steps + [step])[..|steps|] == steps;
  }

  lemma InTimeOne(s: EffectSystem, steps: seq<EffectStep>, step: EffectStep)
    ensures AllInTime(s, steps + [step]) <==> AllInTime(s, steps) && InTime(Run(s, steps), step)
  {
    assert (steps + [step])[..|steps|] == steps;
  }

  lemma CountOne(steps: seq<EffectStep>, step: EffectStep, key: EffectKey)
    ensures OkCount(steps + [step], key) == OkCount(steps, key) + One(RecordsOk(Run(FRESH, steps), step, key))
    ensures OverwriteCount(steps + [step], key) ==
      OverwriteCount(steps, key) + One(Overwrites(Run(FRESH, steps), step, key))
  {
    assert (steps + [step])[..|steps|] == steps;
  }

  /** A second claimer takes over after ten minutes and a millisecond. */
  function TakeOver(key: EffectKey, a: JobId, b: JobId): seq<EffectStep> {
    [Claim(0, key, a, 0)] + [Claim(1, key, b, STALE_MS + 1)]
  }

  lemma TakenOver(key: EffectKey, a: JobId, b: JobId)
    ensures var s := Run(FRESH, TakeOver(key, a, b));
      && s.clock == STALE_MS + 1 && s.grants == map[0 := Grant(key, 0), 1 := Grant(key, STALE_MS + 1)]
      && s.table.Keys == {key} && s.table[key].status == EffectProcessing
    ensures OkCount(TakeOver(key, a, b), key) == 0 && OverwriteCount(TakeOver(key, a, b), key) == 0
  {
    var first := [Claim(0, key, a, 0)];
    assert [] + first == first;
    RunOne(FRESH, [], first[0]);
    CountOne([], first[0], key);
    RunOne(FRESH, first, Claim(1, key, b, STALE_MS + 1));
    CountOne(first, Claim(1, key, b, STALE_MS + 1), key);
  }

  /** Both claimers then record a success: the first one late, the second one in time and over a done row. */
  lemma TwoSuccesses(key: EffectKey, a: JobId, b: JobId)
    ensures var late := TakeOver(key, a, b) + [Record(0, RecordDone, STALE_MS + 2)];
      var both := late + [Record(1, RecordDone, STALE_MS + 3)];
      && OkCount(both, key) == 2 && OverwriteCount(both, key) == 1 && IsDone(Run(FRESH, both).table, key)
      && InTime(Run(FRESH, late), Record(1, RecordDone, STALE_MS + 3))
  {
    var start := TakeOver(key, a, b);
    var late := start + [Record(0, RecordDone, STALE_MS + 2)];
    TakenOver(key, a, b);
    RunOne(FRESH, start, Record(0, RecordDone, STALE_MS + 2));
    CountOne(start, Record(0, RecordDone, STALE_MS + 2), key);
    RunOne(FRESH, late, Record(1, RecordDone, STALE_MS + 3));
    CountOne(late, Record(1, RecordDone, STALE_MS + 3), key);
  }

  /** Or the second one records a failure, in time, and the done key is open for a third delivery. By
      `FrozenExactlyWhen` such a failure is the only thing that reopens it. */
  lemma SuccessUndone(key: EffectKey, a: JobId, b: JobId, message: string)
    ensures var late := TakeOver(key, a, b) + [Record(0, RecordDone, STALE_MS + 2)];
      var undone := late + [Record(1, RecordFailed(Retryable, message), STALE_MS + 3)];
      && OkCount(undone, key) == 1 && OverwriteCount(undone, key) == 1
      && IsDone(Run(FRESH, late).table, key) && !FrozenKey(Run(FRESH, undone).table, key)
      && Granted(Run(FRESH, undone), Claim(2, key, a, STALE_MS + 4), key)
  {
    var start := TakeOver(key, a, b);
    var late := start + [Record(0, RecordDone, STALE_MS + 2)];
    var last := Record(1, RecordFailed(Retryable, message), STALE_MS + 3);
    TakenOver(key, a, b);
    RunOne(FRESH, start, Record(0, RecordDone, STALE_MS + 2));
    CountOne(start, Record(0, RecordDone, STALE_MS + 2), key);
    RunOne(FRESH, late, last);
    CountOne(late, last, key);
  }
}
