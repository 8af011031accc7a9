/** Running a release plan, and undoing its completed steps when one fails
    (packages/release-operations/src/release-executor.ts). */
module ReleaseExecutor {
  import opened Basics

  type Command(==, !new)

  type World(==, !new)

  datatype Step = Step(id: string, commands: seq<Command>, mutates: bool, rollback: seq<Command>)

  datatype Plan = Plan(planHash: string, steps: seq<Step>)

  datatype Event = Planned | Succeeded | Failed | Compensated

  datatype Record = Record(event: Event, id: string, commandCount: nat)

  datatype Outcome =
    | NotConfirmed
    | Finished(records: seq<Record>)
    | Stopped(step: nat, records: seq<Record>)
    | CompensationFailed(step: nat)

  // -------------------------------------------------------- specification

  /** All commands of the first `n` steps, in order. */
  function Forward(steps: seq<Step>, n: nat): seq<Command>
    requires n <= |steps|
  {
    if n == 0 then [] else Forward(steps, n - 1) + steps[n - 1].commands
  }

  function RollbackOf(step: Step): seq<Command> { if step.mutates then step.rollback else [] }

  /** The rollbacks of those of the first `n` steps that change something, last step first. */
  function Undo(steps: seq<Step>, n: nat): seq<Command>
    requires n <= |steps|
  {
    if n == 0 then [] else RollbackOf(steps[n - 1]) + Undo(steps, n - 1)
  }

  function RecordsOf(event: Event, steps: seq<Step>, n: nat): seq<Record>
    requires n <= |steps|
  {
    if n == 0 then []
    else RecordsOf(event, steps, n - 1) + [Record(event, steps[n - 1].id, |steps[n - 1].commands|)]
  }

  /** Its id is written with ":compensation" appended; here the event says so. */
  function CompensationRecord(step: Step): Record { Record(Compensated, step.id, |step.rollback|) }

  /** A step without rollback commands leaves no record. */
  function UndoRecord(step: Step): seq<Record> {
    if RollbackOf(step) == [] then [] else [CompensationRecord(step)]
  }

  function UndoRecords(steps: seq<Step>, n: nat): seq<Record>
    requires n <= |steps|
  {
    if n == 0 then [] else UndoRecord(steps[n - 1]) + UndoRecords(steps, n - 1)
  }

  function Mutating(steps: seq<Step>, n: nat): seq<Step>
    requires n <= |steps|
  {
    if n == 0 then []
    else Mutating(steps, n - 1) + (if steps[n - 1].mutates then [steps[n - 1]] else [])
  }

  /** One record for each of the steps, in order, with the step's id and how many commands it has. */
  lemma {:induction false} RecordsInOrder(event: Event, steps: seq<Step>, n: nat)
    requires n <= |steps|
    ensures |RecordsOf(event, steps, n)| == n
    ensures forall i :: 0 <= i < n ==>
      RecordsOf(event, steps, n)[i] == Record(event, steps[i].id, |steps[i].commands|)
  {
    if n > 0 { RecordsInOrder(event, steps, n - 1); }
  }

  /** Step number `at[k]` is the one taken back in place `k`. */
  ghost predicate FromLastToFirst(steps: seq<Step>, n: nat, at: seq<nat>)
    requires n <= |steps|
  {
    && (forall k, l :: 0 <= k < l < |at| ==> at[k] > at[l])
    && (forall i: nat :: i in at <==> i < n && steps[i].mutates && steps[i].rollback != [])
  }

  lemma OneMoreBack(steps: seq<Step>, n: nat, rest: seq<nat>)
    requires n < |steps| && FromLastToFirst(steps, n, rest)
    ensures FromLastToFirst(steps, n + 1, if steps[n].mutates && steps[n].rollback != [] then [n] + rest else rest)
  {
    forall k | 0 <= k < |rest| ensures rest[k] < n { assert rest[k] in rest; }
  }

  /** Each record is that of the step at its place. */
  ghost predicate RecordsAt(steps: seq<Step>, at: seq<nat>, records: seq<Record>) {
    |at| == |records| && forall k :: 0 <= k < |at| ==>
      at[k] < |steps| && records[k] == Record(Compensated, steps[at[k]].id, |steps[at[k]].rollback|)
  }

  lemma OneMoreRecord(steps: seq<Step>, n: nat, rest: seq<nat>, records: seq<Record>)
    requires n < |steps| && RecordsAt(steps, rest, records)
    ensures RecordsAt(steps, [n] + rest, [Record(Compensated, steps[n].id, |steps[n].rollback|)] + records)
  {
  }

  /** The numbers of the steps that are taken back, last first. */
  function TakenBack(steps: seq<Step>, n: nat): seq<nat>
    requires n <= |steps|
  {
    if n == 0 then []
    else if steps[n - 1].mutates && steps[n - 1].rollback != [] then [n - 1] + TakenBack(steps, n - 1)
    else TakenBack(steps, n - 1)
  }

  lemma {:induction false} TakenFromLast(steps: seq<Step>, n: nat)
    requires n <= |steps|
    ensures FromLastToFirst(steps, n, TakenBack(steps, n))
  {
    if n > 0 {
      TakenFromLast(steps, n - 1);
      OneMoreBack(steps, n - 1, TakenBack(steps, n - 1));
    }
  }

  lemma {:induction false} TakenRecords(steps: seq<Step>, n: nat)
    requires n <= |steps|
    ensures RecordsAt(steps, TakenBack(steps, n), UndoRecords(steps, n))
  {
    if n > 0 {
      TakenRecords(steps, n - 1);
      OneMoreRecord(steps, n - 1, TakenBack(steps, n - 1), UndoRecords(steps, n - 1));
      assert [] + UndoRecords(steps, n - 1) == UndoRecords(steps, n - 1);
    }
  }

  /** Exactly the steps that change something and have rollback commands leave a record, from the last to the first. */
  lemma UndoRecordsInOrder(steps: seq<Step>, n: nat) returns (at: seq<nat>)
    requires n <= |steps|
    ensures FromLastToFirst(steps, n, at) && RecordsAt(steps, at, UndoRecords(steps, n))
  {
    at := TakenBack(steps, n);
    TakenFromLast(steps, n);
    TakenRecords(steps, n);
  }

  lemma {:induction false} UndoOfPrefix(steps: seq<Step>, more: seq<Step>, n: nat)
    requires n <= |steps| && steps <= more
    ensures Undo(more, n) == Undo(steps, n) && UndoRecords(more, n) == UndoRecords(steps, n)
  {
    if n > 0 { UndoOfPrefix(steps, more, n - 1); }
  }

  lemma OneMoreToUndo(steps: seq<Step>, step: Step)
    ensures var more := steps + [step];
      && Undo(more, |more|) == RollbackOf(step) + Undo(steps, |steps|)
      && UndoRecords(more, |more|) == UndoRecord(step) + UndoRecords(steps, |steps|)
  {
    UndoOfPrefix(steps, steps + [step], |steps|);
  }

  lemma MutatingGrows(steps: seq<Step>, n: nat)
    requires 0 < n <= |steps| && steps[n - 1].mutates
    ensures Mutating(steps, n) == Mutating(steps, n - 1) + [steps[n - 1]]
    ensures Undo(steps, n) == RollbackOf(steps[n - 1]) + Undo(steps, n - 1)
    ensures UndoRecords(steps, n) == UndoRecord(steps[n - 1]) + UndoRecords(steps, n - 1)
  {
  }

  lemma NothingMutated(steps: seq<Step>, n: nat)
    requires 0 < n <= |steps| && !steps[n - 1].mutates
    ensures Mutating(steps, n) == Mutating(steps, n - 1)
    ensures Undo(steps, n) == Undo(steps, n - 1) && UndoRecords(steps, n) == UndoRecords(steps, n - 1)
  {
    var a, b := Undo(steps, n - 1), UndoRecords(steps, n - 1);
    assert [] + a == a && [] + b == b;
  }

  /** Undoing the list of completed mutating steps is undoing the steps. */
  lemma {:induction false} UndoOfMutating(steps: seq<Step>, n: nat)
    requires n <= |steps|
    ensures var m := Mutating(steps, n);
      Undo(m, |m|) == Undo(steps, n) && UndoRecords(m, |m|) == UndoRecords(steps, n)
  {
    if n > 0 {
      var m := Mutating(steps, n - 1);
      UndoOfMutating(steps, n - 1);
      if steps[n - 1].mutates {
        ghost var more := m + [steps[n - 1]];
        OneMoreToUndo(m, steps[n - 1]);
        MutatingGrows(steps, n);
        assert Mutating(steps, n) == more;
      } else {
        NothingMutated(steps, n);
      }
    }
  }

  lemma {:induction false} MutatingMutates(steps: seq<Step>, n: nat)
    requires n <= |steps|
    ensures forall i :: 0 <= i < |Mutating(steps, n)| ==> Mutating(steps, n)[i].mutates
  {
    if n > 0 { MutatingMutates(steps, n - 1); }
  }

  // --------------------------------------------------- what compensation restores

  type Effect = (World, Command) -> World

  function Run(effect: Effect, commands: seq<Command>, w: World): World {
    if commands == [] then w else effect(Run(effect, commands[..|commands| - 1], w), commands[|commands| - 1])
  }

  lemma {:induction false} RunOn(effect: Effect, a: seq<Command>, b: seq<Command>, w: World)
    ensures Run(effect, a + b, w) == Run(effect, b, Run(effect, a, w))
  {
    if b == [] {
      assert a + b == a;
    } else {
      assert (a + b)[..|a + b| - 1] == a + b[..|b| - 1];
      RunOn(effect, a, b[..|b| - 1], w);
    }
  }

  /** `back` takes back whatever `there` does. */
  ghost predicate Inverse(effect: Effect, there: seq<Command>, back: seq<Command>) {
    forall w :: Run(effect, back, Run(effect, there, w)) == w
  }

  /** Each of the first `n` steps changes nothing, or its rollback takes its change back. */
  ghost predicate Undoable(effect: Effect, steps: seq<Step>, n: nat)
    requires n <= |steps|
  {
    n == 0 || (Inverse(effect, steps[n - 1].commands, RollbackOf(steps[n - 1])) && Undoable(effect, steps, n - 1))
  }

  /** And the other way round: the commands redo what the rollback took back. */
  ghost predicate Redoable(effect: Effect, steps: seq<Step>, n: nat)
    requires n <= |steps|
  {
    n == 0 || (Inverse(effect, RollbackOf(steps[n - 1]), steps[n - 1].commands) && Redoable(effect, steps, n - 1))
  }

  /** The commands of a failed run with compensation: all earlier steps, the failing step up to the failing
      command, and the rollbacks. */
  function CompensatedTrace(steps: seq<Step>, failed: nat, command: nat): seq<Command>
    requires failed < |steps| && command < |steps[failed].commands|
  {
    Forward(steps, failed) + steps[failed].commands[..command + 1] + Undo(steps, failed)
  }

  /** Taking back the last thing first. */
  lemma InverseJoins(effect: Effect, a: seq<Command>, b: seq<Command>, undoA: seq<Command>, undoB: seq<Command>)
    requires Inverse(effect, a, undoA) && Inverse(effect, b, undoB)
    ensures Inverse(effect, a + b, undoB + undoA)
  {
    forall w ensures Run(effect, undoB + undoA, Run(effect, a + b, w)) == w {
      RunOn(effect, a, b, w);
      RunOn(effect, undoB, undoA, Run(effect, a + b, w));
    }
  }

  lemma {:induction false} UndoForward(effect: Effect, steps: seq<Step>, n: nat)
    requires n <= |steps| && Undoable(effect, steps, n)
    ensures Inverse(effect, Forward(steps, n), Undo(steps, n))
  {
    if n > 0 {
      UndoForward(effect, steps, n - 1);
      InverseJoins(effect, Forward(steps, n - 1), steps[n - 1].commands, Undo(steps, n - 1), RollbackOf(steps[n - 1]));
    }
  }

  lemma {:induction false} ForwardUndo(effect: Effect, steps: seq<Step>, n: nat)
    requires n <= |steps| && Redoable(effect, steps, n)
    ensures Inverse(effect, Undo(steps, n), Forward(steps, n))
  {
    if n > 0 {
      ForwardUndo(effect, steps, n - 1);
      InverseJoins(effect, RollbackOf(steps[n - 1]), Undo(steps, n - 1), steps[n - 1].commands, Forward(steps, n - 1));
    }
  }

  lemma CompensatedRun(effect: Effect, steps: seq<Step>, failed: nat, command: nat, w: World)
    requires failed < |steps| && command < |steps[failed].commands|
    ensures Run(effect, CompensatedTrace(steps, failed, command), w) ==
      Run(effect, Undo(steps, failed),
          Run(effect, steps[failed].commands[..command + 1], Run(effect, Forward(steps, failed), w)))
  {
    var a, b := Forward(steps, failed), steps[failed].commands[..command + 1];
    RunOn(effect, a + b, Undo(steps, failed), w);
    RunOn(effect, a, b, w);
  }

  /** If every earlier step can be undone and the failing step changed nothing, the system is back where it was. */
  lemma CompensationRestores(effect: Effect, steps: seq<Step>, failed: nat, command: nat, w: World)
    requires failed < |steps| && command < |steps[failed].commands|
    requires Undoable(effect, steps, failed)
    requires var before := Run(effect, Forward(steps, failed), w);
      Run(effect, steps[failed].commands[..command + 1], before) == before
    ensures Run(effect, CompensatedTrace(steps, failed, command), w) == w
  {
    CompensatedRun(effect, steps, failed, command, w);
    UndoForward(effect, steps, failed);
  }

  /** Nothing takes the failing step's own change back: where commands and rollbacks are inverse to each other,
      the system is restored exactly when that step changed nothing. */
  lemma RestoredExactlyWhen(effect: Effect, steps: seq<Step>, failed: nat, command: nat, w: World)
    requires failed < |steps| && command < |steps[failed].commands|
    requires Undoable(effect, steps, failed) && Redoable(effect, steps, failed)
    ensures var before := Run(effect, Forward(steps, failed), w);
      Run(effect, CompensatedTrace(steps, failed, command), w) == w <==>
      Run(effect, steps[failed].commands[..command + 1], before) == before
  {
    var before := Run(effect, Forward(steps, failed), w);
    var after := Run(effect, steps[failed].commands[..command + 1], before);
    CompensatedRun(effect, steps, failed, command, w);
    UndoForward(effect, steps, failed);
    ForwardUndo(effect, steps, failed);
    assert Run(effect, Forward(steps, failed), Run(effect, Undo(steps, failed), after)) == after;
  }

  /** One command swaps two states of the system; every other command does nothing. */
  function Swap(turn: Command, a: World, b: World): Effect {
    (w: World, c: Command) => if c != turn then w else if w == a then b else if w == b then a else w
  }

  /** Two steps that swap and swap back; the second one swaps and then fails at its next command. */
  function HalfDone(turn: Command, stop: Command): seq<Step> {
    [Step("first", [turn], true, [turn]), Step("second", [turn, stop], true, [turn])]
  }

  lemma RunTwo(effect: Effect, c: Command, d: Command, w: World)
    ensures Run(effect, [c], w) == effect(w, c)
    ensures Run(effect, [c, d], w) == effect(effect(w, c), d)
  {
    assert [c][..0] == [] && [c, d][..1] == [c];
  }

  /** The step that did half its work is not taken back: the first step is undone, the second one's swap stays. */
  lemma HalfDoneStays(turn: Command, stop: Command, a: World, b: World)
    requires turn != stop && a != b
    ensures var effect, steps := Swap(turn, a, b), HalfDone(turn, stop);
      && Undoable(effect, steps, 1) && Redoable(effect, steps, 1)
      && Run(effect, steps[1].commands[..2], Run(effect, Forward(steps, 1), a)) != Run(effect, Forward(steps, 1), a)
      && Run(effect, CompensatedTrace(steps, 1, 1), a) == b
  {
    var effect, steps := Swap(turn, a, b), HalfDone(turn, stop);
    forall w ensures Run(effect, [turn], Run(effect, [turn], w)) == w {
      RunTwo(effect, turn, stop, w);
      RunTwo(effect, turn, stop, Run(effect, [turn], w));
    }
    assert Inverse(effect, [turn], [turn]);
    assert Forward(steps, 1) == [turn] && steps[1].commands[..2] == [turn, stop];
    assert Undo(steps, 1) == [turn];
    CompensatedRun(effect, steps, 1, 1, a);
    RunTwo(effect, turn, stop, a);
    RunTwo(effect, turn, stop, b);
  }

  // ------------------------------------------------------------- execution

  /** All calls from number `from` up to `to` succeed. */
  predicate AllOk(ok: nat -> bool, from: nat, to: nat) { forall i :: from <= i < to ==> ok(i) }

  /** Everything before this command of this step succeeded, and this command did not. */
  predicate StoppedAt(steps: seq<Step>, ok: nat -> bool, failed: nat, command: nat) {
    failed < |steps| && command < |steps[failed].commands| &&
    var n := |Forward(steps, failed)| + command;
    AllOk(ok, 0, n) && !ok(n)
  }

  function StopRecords(steps: seq<Step>, failed: nat, compensate: bool): seq<Record>
    requires failed < |steps|
  {
    RecordsOf(Succeeded, steps, failed) + [Record(Failed, steps[failed].id, |steps[failed].commands|)] +
    if compensate then UndoRecords(steps, failed) else []
  }

  /** What a confirmed run has executed, and what it reports. */
  ghost predicate Ran(steps: seq<Step>, ok: nat -> bool, compensate: bool, trace: seq<Command>, outcome: Outcome,
                      command: nat) {
    match outcome
    case NotConfirmed => false
    case Finished(records) =>
      trace == Forward(steps, |steps|) && records == RecordsOf(Succeeded, steps, |steps|) && AllOk(ok, 0, |trace|)
    case Stopped(failed, records) =>
      && StoppedAt(steps, ok, failed, command) && records == StopRecords(steps, failed, compensate)
      && trace == if compensate then CompensatedTrace(steps, failed, command)
                  else Forward(steps, failed) + steps[failed].commands[..command + 1]
    case CompensationFailed(failed) =>
      && compensate && StoppedAt(steps, ok, failed, command) && trace <= CompensatedTrace(steps, failed, command)
      && |trace| > |Forward(steps, failed)| + command + 1 && !ok(|trace| - 1)
  }

  /** The compensation loop with the steps below `i` still to undo. */
  predicate Undoing(completed: seq<Step>, i: nat, undone: seq<Command>, records: seq<Record>) {
    && i <= |completed|
    && undone + Undo(completed, i) == Undo(completed, |completed|)
    && records + UndoRecords(completed, i) == UndoRecords(completed, |completed|)
  }

  lemma JoinAssociates<T>(a: seq<T>, b: seq<T>, c: seq<T>)
    ensures a + (b + c) == (a + b) + c
  {
  }

  lemma UndoingNext(completed: seq<Step>, i: nat, undone: seq<Command>, records: seq<Record>)
    requires i < |completed| && Undoing(completed, i + 1, undone, records) && completed[i].mutates
    ensures Undoing(completed, i, undone + completed[i].rollback, records + UndoRecord(completed[i]))
    ensures undone + completed[i].rollback <= Undo(completed, |completed|)
    ensures completed[i].rollback == [] ==> Undoing(completed, i, undone, records)
  {
    JoinAssociates(undone, completed[i].rollback, Undo(completed, i));
    JoinAssociates(records, UndoRecord(completed[i]), UndoRecords(completed, i));
    if completed[i].rollback == [] {
      assert undone + [] == undone && records + [] == records;
    }
  }

  lemma CompensationSound(steps: seq<Step>, ok: nat -> bool, i: nat, command: nat, trace: seq<Command>,
                          undone: seq<Command>, more: seq<Record>, succeeded: bool)
    requires StoppedAt(steps, ok, i, command)
    requires trace == Forward(steps, i) + steps[i].commands[..command + 1] + undone && undone <= Undo(steps, i)
    requires if succeeded then undone == Undo(steps, i) && more == UndoRecords(steps, i)
             else undone != [] && !ok(|trace| - 1)
    ensures var all := RecordsOf(Succeeded, steps, i) + [Record(Failed, steps[i].id, |steps[i].commands|)];
      Ran(steps, ok, true, trace, if succeeded then Stopped(i, all + more) else CompensationFailed(i), command)
  {
    if !succeeded {
      var rest := Undo(steps, i)[|undone|..];
      assert Undo(steps, i) == undone + rest;
      assert CompensatedTrace(steps, i, command) == trace + rest;
    }
  }

  class Executor {
    /** Whether the n-th call of the runner exits with code 0 (otherwise it exits with another code or throws). */
    const ok: nat -> bool
    const effect: Effect
    var world: World
    var trace: seq<Command>

    constructor (ok: nat -> bool, effect: Effect, world: World)
      ensures this.ok == ok && this.effect == effect && this.world == world && trace == []
    {
      this.ok, this.effect, this.world, trace := ok, effect, world, [];
    }

    method RunOne(command: Command) returns (succeeded: bool)
      modifies this
      ensures trace == old(trace) + [command] && world == effect(old(world), command)
      ensures succeeded == ok(|old(trace)|)
    {
      world := effect(world, command);
      succeeded := ok(|trace|);
      trace := trace + [command];
    }

    /** Commands one after the other, up to the first that fails. */
    method RunCommands(commands: seq<Command>) returns (done: nat, succeeded: bool)
      modifies this
      ensures done <= |commands| && trace == old(trace) + commands[..done]
      ensures world == Run(effect, commands[..done], old(world))
      ensures succeeded ==> done == |commands| && AllOk(ok, |old(trace)|, |trace|)
      ensures !succeeded ==> done > 0 && AllOk(ok, |old(trace)|, |trace| - 1) && !ok(|trace| - 1)
    {
      for i := 0 to |commands|
        invariant trace == old(trace) + commands[..i] && world == Run(effect, commands[..i], old(world))
        invariant AllOk(ok, |old(trace)|, |trace|)
      {
        assert commands[..i + 1] == commands[..i] + [commands[i]] && commands[..i + 1][..i] == commands[..i];
        var exited := RunOne(commands[i]);
        if !exited { return i + 1, false; }
      }
      assert commands[..|commands|] == commands;
      return |commands|, true;
    }

    /** The rollback commands of one step. */
    method UndoStep(step: Step, ghost undone: seq<Command>, ghost before: seq<Command>, ghost start: World)
      returns (exited: bool, ghost now: seq<Command>)
      requires trace == before + undone && world == Run(effect, undone, start)
      modifies this
      ensures trace == before + now && now <= undone + step.rollback && world == Run(effect, now, start)
      ensures exited ==> now == undone + step.rollback
      ensures !exited ==> |now| > |undone| && !ok(|trace| - 1)
    {
      var done;
      done, exited := RunCommands(step.rollback);
      RunOn(effect, undone, step.rollback[..done], start);
      now := undone + step.rollback[..done];
      assert undone + step.rollback == now + step.rollback[done..];
    }

    /** `compensate`. */
    method Compensate(completed: seq<Step>) returns (records: seq<Record>, succeeded: bool, ghost undone: seq<Command>)
      requires forall i :: 0 <= i < |completed| ==> completed[i].mutates
      modifies this
      ensures trace == old(trace) + undone && undone <= Undo(completed, |completed|)
      ensures world == Run(effect, undone, old(world))
      ensures succeeded ==> Undoing(completed, 0, undone, records)
      ensures !succeeded ==> undone != [] && !ok(|trace| - 1)
    {
      var i: nat := |completed|;
      undone, records := [], [];
      while i > 0
        invariant Undoing(completed, i, undone, records) && trace == old(trace) + undone
        invariant world == Run(effect, undone, old(world))
      {
        i := i - 1;
        var step := completed[i];
        UndoingNext(completed, i, undone, records);
        if |step.rollback| == 0 { continue; }
        var exited;
        exited, undone := UndoStep(step, undone, old(trace), old(world));
        if !exited { return records, false, undone; }
        records := records + [CompensationRecord(step)];
      }
      return records, true, undone;
    }

    /** `executeReleasePlan`. The failing command of a stopped run is number `command` of its step. */
    method Execute(plan: Plan, dryRun: bool, confirm: Option<string>, compensate: bool)
      returns (outcome: Outcome, ghost command: nat)
      requires trace == []
      modifies this
      ensures dryRun ==> outcome == Finished(RecordsOf(Planned, plan.steps, |plan.steps|)) && trace == []
      ensures !dryRun ==> (outcome == NotConfirmed <==> confirm != Some(plan.planHash))
      ensures outcome == NotConfirmed ==> trace == []
      ensures !dryRun && outcome != NotConfirmed ==> Ran(plan.steps, ok, compensate, trace, outcome, command)
      ensures world == Run(effect, trace, old(world))
    {
      if dryRun {
        var planned := DryRun(plan.steps);
        return Finished(planned), 0;
      }
      if confirm != Some(plan.planHash) { return NotConfirmed, 0; }
      outcome, command := RunSteps(plan.steps, compensate);
    }

    method RunSteps(steps: seq<Step>, compensate: bool) returns (outcome: Outcome, ghost command: nat)
      requires trace == []
      modifies this
      ensures Ran(steps, ok, compensate, trace, outcome, command)
      ensures world == Run(effect, trace, old(world))
    {
      var records: seq<Record> := [];
      var completed: seq<Step> := [];
      for i := 0 to |steps|
        invariant trace == Forward(steps, i) && world == Run(effect, trace, old(world)) && AllOk(ok, 0, |trace|)
        invariant records == RecordsOf(Succeeded, steps, i) && completed == Mutating(steps, i)
      {
        var step := steps[i];
        var done, exited := RunCommands(step.commands);
        RunOn(effect, Forward(steps, i), step.commands[..done], old(world));
        if !exited {
          outcome := Stop(steps, i, done - 1, compensate, completed, records, old(world));
          return outcome, done - 1;
        }
        assert step.commands[..done] == step.commands;
        records := records + [Record(Succeeded, step.id, |step.commands|)];
        if step.mutates { completed := completed + [step]; }
      }
      return Finished(records), 0;
    }

    /** The `catch` of a failed step. */
    method Stop(steps: seq<Step>, i: nat, ghost command: nat, compensate: bool, completed: seq<Step>,
                records: seq<Record>, ghost start: World)
      returns (outcome: Outcome)
      requires StoppedAt(steps, ok, i, command) && completed == Mutating(steps, i)
      requires records == RecordsOf(Succeeded, steps, i)
      requires trace == Forward(steps, i) + steps[i].commands[..command + 1] && world == Run(effect, trace, start)
      modifies this
      ensures Ran(steps, ok, compensate, trace, outcome, command)
      ensures world == Run(effect, trace, start)
    {
      var all := records + [Record(Failed, steps[i].id, |steps[i].commands|)];
      outcome := Stopped(i, all);
      if compensate {
        ghost var before := trace;
        UndoOfMutating(steps, i);
        MutatingMutates(steps, i);
        var more, succeeded;
        ghost var undone;
        more, succeeded, undone := Compensate(completed);
        RunOn(effect, before, undone, start);
        outcome := if succeeded then Stopped(i, all + more) else CompensationFailed(i);
        CompensationSound(steps, ok, i, command, trace, undone, more, succeeded);
      }
    }

    method DryRun(steps: seq<Step>) returns (records: seq<Record>)
      ensures records == RecordsOf(Planned, steps, |steps|)
    {
      records := [];
      for i := 0 to |steps|
        invariant records == RecordsOf(Planned, steps, i)
      {
        records := records + [Record(Planned, steps[i].id, |steps[i].commands|)];
      }
    }
  }
}
