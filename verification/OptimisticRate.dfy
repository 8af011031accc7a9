/** Consuming a batch of rate limits from shared storage: D1 reads, decides and writes back under a version
    check, at most five times (control-plane.ts); Postgres does the same three things under a lock
    (control-plane-postgres-effects.ts). Both are the atomic operation `Commits` describes. */
module OptimisticRate {
  import opened Basics
  import opened RateLimit

  /** The stored row of one batch scope. */
  datatype Row = Row(states: seq<State>, version: nat)

  type Caller(==, !new)

  /** One admitted consumption: whose, of what, and at what time it was decided. */
  datatype Commit = Commit(caller: Caller, inputs: seq<Input>, at: Instant)

  function StatesOf(row: Option<Row>): seq<State> { if row.Some? then row.value.states else [] }

  function VersionOf(row: Option<Row>): nat { if row.Some? then row.value.version else 0 }

  /** The row after the given consumptions, one after the other. */
  function After(commits: seq<Commit>): Option<Row> {
    if commits == [] then None
    else
      var last := commits[|commits| - 1];
      Some(Row(NextStates(StatesOf(After(commits[..|commits| - 1])), last.inputs, last.at), |commits|))
  }

  /** Each consumption was admissible when its turn came, and decision times never go back. */
  ghost predicate Serial(commits: seq<Commit>) {
    TimesOrdered(commits) && forall i: nat :: i < |commits| ==> AdmissibleAt(commits, i)
  }

  predicate Before(commits: seq<Commit>, now: Instant) {
    commits == [] || commits[|commits| - 1].at <= now
  }

  lemma AfterAppend(commits: seq<Commit>, c: Commit)
    ensures After(commits + [c]) == Some(Row(NextStates(StatesOf(After(commits)), c.inputs, c.at), |commits| + 1))
  {
    assert (commits + [c])[..|commits|] == commits;
  }

  predicate AdmissibleAt(commits: seq<Commit>, i: nat)
    requires i < |commits|
  {
    !AnyRejects(StatesOf(After(commits[..i])), commits[i].inputs, commits[i].at)
  }

  lemma AppendSerial(commits: seq<Commit>, c: Commit)
    requires Serial(commits) && Before(commits, c.at)
    requires !AnyRejects(StatesOf(After(commits)), c.inputs, c.at)
    ensures Serial(commits + [c])
    ensures After(commits + [c]) == Some(Row(NextStates(StatesOf(After(commits)), c.inputs, c.at), |commits| + 1))
  {
    AfterAppend(commits, c);
    var more := commits + [c];
    assert more[..|commits|] == commits;
    forall i: nat | i < |more| ensures AdmissibleAt(more, i) {
      if i < |commits| {
        assert more[..i] == commits[..i];
        assert AdmissibleAt(commits, i);
      }
    }
    TimesAppend(commits, c);
  }

  predicate TimesOrdered(commits: seq<Commit>) {
    forall i, j :: 0 <= i <= j < |commits| ==> commits[i].at <= commits[j].at
  }

  lemma TimesAppend(commits: seq<Commit>, c: Commit)
    requires TimesOrdered(commits) && Before(commits, c.at)
    ensures TimesOrdered(commits + [c])
  {
  }

  lemma VersionCounts(commits: seq<Commit>)
    ensures VersionOf(After(commits)) == |commits|
    ensures After(commits).None? <==> commits == []
  {
  }

  // ------------------------------------------------- any number of callers

  datatype Result = Allowed | RefusedUntil(retryAt: Instant) | Contended

  /** Where a caller is in its loop. */
  datatype Phase =
    | Idle(inputs: seq<Input>, attempt: nat)
    | HasRead(inputs: seq<Input>, attempt: nat, row: Option<Row>)
    | HasDecided(inputs: seq<Input>, attempt: nat, row: Option<Row>, at: Instant)
    | Finished(result: Result)

  datatype Machine = Machine(cell: Option<Row>, clock: Instant, phases: map<Caller, Phase>, ghost commits: seq<Commit>)

  const MAX_ATTEMPTS: nat := 5

  /** An empty batch is allowed at once without touching the row, so it does not enter. */
  ghost predicate Arrives(m: Machine, n: Machine, c: Caller, inputs: seq<Input>) {
    inputs != [] && c !in m.phases && n == m.(phases := m.phases[c := Idle(inputs, 0)])
  }

  ghost predicate Reads(m: Machine, n: Machine, c: Caller) {
    c in m.phases && m.phases[c].Idle? &&
    n == m.(phases := m.phases[c := HasRead(m.phases[c].inputs, m.phases[c].attempt, m.cell)])
  }

  /** A refusal ends the call at once; an admission goes on to the write. */
  ghost predicate Decides(m: Machine, n: Machine, c: Caller, d: Decision) {
    c in m.phases && m.phases[c].HasRead? &&
    var p := m.phases[c];
    RateLimit.Decides(StatesOf(p.row), p.inputs, m.clock, d) &&
    n == m.(phases := m.phases[c := if d.Refused? then Finished(RefusedUntil(d.retryAt))
                                    else HasDecided(p.inputs, p.attempt, p.row, m.clock)])
  }

  /** `UPDATE … WHERE version = ?`, or `INSERT OR IGNORE` if there was no row. */
  ghost predicate Writes(m: Machine, n: Machine, c: Caller) {
    c in m.phases && m.phases[c].HasDecided? &&
    var p := m.phases[c];
    if (p.row.None? && m.cell.None?) ||
       (p.row.Some? && m.cell.Some? && m.cell.value.version == p.row.value.version) then
      n == m.(cell := Some(Row(NextStates(StatesOf(p.row), p.inputs, p.at), VersionOf(p.row) + 1)),
              phases := m.phases[c := Finished(Allowed)],
              commits := m.commits + [Commit(c, p.inputs, p.at)])
    else
      n == m.(phases := m.phases[c := if p.attempt + 1 < MAX_ATTEMPTS then Idle(p.inputs, p.attempt + 1)
                                      else Finished(Contended)])
  }

  /** The Postgres form: read, decide and write while holding the scope's lock. */
  ghost predicate Locked(m: Machine, n: Machine, c: Caller, d: Decision) {
    c in m.phases && m.phases[c].Idle? &&
    var p := m.phases[c];
    RateLimit.Decides(StatesOf(m.cell), p.inputs, m.clock, d) &&
    if d.Refused? then n == m.(phases := m.phases[c := Finished(RefusedUntil(d.retryAt))])
    else
      n == m.(cell := Some(Row(d.next, if m.cell.Some? then m.cell.value.version + 1 else 1)),
              phases := m.phases[c := Finished(Allowed)],
              commits := m.commits + [Commit(c, p.inputs, m.clock)])
  }

  ghost predicate Ticks(m: Machine, n: Machine) {
    exists t :: t >= m.clock && n == m.(clock := t)
  }

  ghost predicate Next(m: Machine, n: Machine) {
    || Ticks(m, n)
    || (exists c, inputs :: Arrives(m, n, c, inputs))
    || (exists c :: Reads(m, n, c))
    || (exists c, d :: Decides(m, n, c, d))
    || (exists c :: Writes(m, n, c))
    || (exists c, d :: Locked(m, n, c, d))
  }

  ghost predicate Initial(m: Machine) { m.cell.None? && m.phases == map[] && m.commits == [] }

  ghost predicate Behaviour(run: seq<Machine>) {
    run != [] && Initial(run[0]) && forall i :: 0 <= i < |run| - 1 ==> Next(run[i], run[i + 1])
  }

  function CommitsOf(commits: seq<Commit>, c: Caller): nat {
    if commits == [] then 0
    else CommitsOf(commits[..|commits| - 1], c) + if commits[|commits| - 1].caller == c then 1 else 0
  }

  /** What a caller holds was once the row; if the version has not moved it still is. */
  ghost predicate PhaseSound(m: Machine, p: Phase) {
    match p
    case HasRead(_, _, row) => VersionOf(row) <= |m.commits| && row == After(m.commits[..VersionOf(row)])
    case HasDecided(inputs, _, row, at) =>
      && VersionOf(row) <= |m.commits| && row == After(m.commits[..VersionOf(row)])
      && at <= m.clock && Before(m.commits[..VersionOf(row)], at)
      && !AnyRejects(StatesOf(row), inputs, at)
    case _ => true
  }

  ghost predicate Sound(m: Machine) {
    && m.cell == After(m.commits) && Serial(m.commits) && Before(m.commits, m.clock)
    && (forall c :: c in m.phases ==> PhaseSound(m, m.phases[c]))
    && (forall c :: CommitsOf(m.commits, c) == if c in m.phases && m.phases[c] == Finished(Allowed) then 1 else 0)
  }

  lemma OthersStaySound(m: Machine, n: Machine, p: Phase)
    requires PhaseSound(m, p) && m.commits <= n.commits && m.clock <= n.clock
    ensures PhaseSound(n, p)
  {
    if p.HasRead? || p.HasDecided? { assert n.commits[..VersionOf(p.row)] == m.commits[..VersionOf(p.row)]; }
  }

  /** Every prefix of a serial list is before every time the whole list is before. */
  lemma PrefixBefore(commits: seq<Commit>, v: nat, now: Instant)
    requires Serial(commits) && Before(commits, now) && v <= |commits|
    ensures Before(commits[..v], now)
  {
    if v > 0 { assert commits[v - 1].at <= commits[|commits| - 1].at; }
  }

  lemma CommitAppended(commits: seq<Commit>, c: Commit, x: Caller)
    ensures CommitsOf(commits + [c], x) == CommitsOf(commits, x) + if c.caller == x then 1 else 0
  {
    assert (commits + [c])[..|commits|] == commits;
  }

  lemma StepSound(m: Machine, n: Machine)
    requires Sound(m) && Next(m, n)
    ensures Sound(n)
  {
    if c :| Writes(m, n, c) {
      WriteSound(m, n, c);
    } else if c, d :| Locked(m, n, c, d) {
      LockedSound(m, n, c, d);
    } else if c, d :| Decides(m, n, c, d) {
      DecideSound(m, n, c, d);
    } else if c :| Reads(m, n, c) {
      VersionCounts(m.commits);
      assert m.commits[..|m.commits|] == m.commits;
      forall x | x in n.phases ensures PhaseSound(n, n.phases[x]) {
        if x != c { OthersStaySound(m, n, m.phases[x]); }
      }
    } else {
      forall x | x in m.phases ensures PhaseSound(n, m.phases[x]) { OthersStaySound(m, n, m.phases[x]); }
    }
  }

  lemma DecideSound(m: Machine, n: Machine, c: Caller, d: Decision)
    requires Sound(m) && Decides(m, n, c, d)
    ensures Sound(n)
  {
    PrefixBefore(m.commits, VersionOf(m.phases[c].row), m.clock);
    forall x | x in n.phases ensures PhaseSound(n, n.phases[x]) {
      if x != c { OthersStaySound(m, n, m.phases[x]); }
    }
  }

  lemma WriteSound(m: Machine, n: Machine, c: Caller)
    requires Sound(m) && Writes(m, n, c)
    ensures Sound(n)
  {
    var p := m.phases[c];
    VersionCounts(m.commits);
    if n.cell == m.cell {
      forall x | x in n.phases ensures PhaseSound(n, n.phases[x]) {
        if x != c { OthersStaySound(m, n, m.phases[x]); }
      }
    } else {
      assert PhaseSound(m, p);
      assert VersionOf(p.row) == |m.commits|;
      WinSound(m, n, c);
    }
  }

  /** A write that finds its version unmoved is a consumption from the current row. */
  lemma WinSound(m: Machine, n: Machine, c: Caller)
    requires Sound(m) && Writes(m, n, c) && VersionOf(m.phases[c].row) == |m.commits|
    ensures Sound(n)
  {
    var p := m.phases[c];
    VersionCounts(m.commits);
    assert PhaseSound(m, p);
    assert m.commits[..|m.commits|] == m.commits && p.row == m.cell;
    ConsumptionSound(m, n, Commit(c, p.inputs, p.at));
  }

  lemma LockedSound(m: Machine, n: Machine, c: Caller, d: Decision)
    requires Sound(m) && Locked(m, n, c, d)
    ensures Sound(n)
  {
    VersionCounts(m.commits);
    if d.Admitted? {
      ConsumptionSound(m, n, Commit(c, m.phases[c].inputs, m.clock));
    } else {
      forall x | x in n.phases ensures PhaseSound(n, n.phases[x]) {
        if x != c { OthersStaySound(m, n, m.phases[x]); }
      }
    }
  }

  /** However it came about, one admissible consumption of the current row keeps everything sound. */
  lemma ConsumptionSound(m: Machine, n: Machine, mine: Commit)
    requires Sound(m) && mine.caller in m.phases && m.phases[mine.caller] != Finished(Allowed)
    requires Before(m.commits, mine.at) && mine.at <= m.clock == n.clock
    requires !AnyRejects(StatesOf(m.cell), mine.inputs, mine.at)
    requires n.cell == Some(Row(NextStates(StatesOf(m.cell), mine.inputs, mine.at), |m.commits| + 1))
    requires n.commits == m.commits + [mine] && n.phases == m.phases[mine.caller := Finished(Allowed)]
    ensures Sound(n)
  {
    AppendSerial(m.commits, mine);
    forall x ensures CommitsOf(n.commits, x) == CommitsOf(m.commits, x) + if mine.caller == x then 1 else 0 {
      CommitAppended(m.commits, mine, x);
    }
    forall x | x in n.phases ensures PhaseSound(n, n.phases[x]) {
      if x != mine.caller { OthersStaySound(m, n, m.phases[x]); }
    }
  }

  lemma {:induction false} BehaviourSound(run: seq<Machine>, i: nat)
    requires Behaviour(run) && i < |run|
    ensures Sound(run[i])
  {
    if i > 0 {
      BehaviourSound(run, i - 1);
      StepSound(run[i - 1], run[i]);
    }
  }

  /** Optimistic equals atomic. However the callers' reads, decisions and writes interleave, the stored row is
      exactly its version's number of admitted consumptions applied one after the other at times that never go
      back; a caller contributed one of them if it was told "allowed", and none if it was refused, gave up or
      is still under way. */
  lemma RowIsSerial(run: seq<Machine>, i: nat, c: Caller)
    requires Behaviour(run) && i < |run|
    ensures var m := run[i];
      && m.cell == After(m.commits) && Serial(m.commits) && VersionOf(m.cell) == |m.commits|
      && CommitsOf(m.commits, c) == (if c in m.phases && m.phases[c] == Finished(Allowed) then 1 else 0)
  {
    BehaviourSound(run, i);
    VersionCounts(run[i].commits);
  }

  // ------------------------------------------------------- the two loops

  predicate LastIs(commits: seq<Commit>, me: Caller, inputs: seq<Input>)
    requires commits != []
  {
    commits[|commits| - 1].caller == me && commits[|commits| - 1].inputs == inputs
  }

  /** Writing back an admitted decision is consuming from the row it was made on. */
  lemma AdmissionExtends(seen: seq<Commit>, c: Commit, decision: Decision, me: Caller)
    requires Serial(seen) && Before(seen, c.at) && c.caller == me
    requires RateLimit.Decides(StatesOf(After(seen)), c.inputs, c.at, decision) && decision.Admitted?
    ensures Serial(seen + [c]) && Before(seen + [c], c.at)
    ensures After(seen + [c]) == Some(Row(decision.next, VersionOf(After(seen)) + 1))
    ensures CommitsOf(seen + [c], me) == CommitsOf(seen, me) + 1
  {
    VersionCounts(seen);
    AppendSerial(seen, c);
    CommitAppended(seen, c, me);
  }

  /** A version that has not moved means that nobody consumed in between. */
  lemma UnmovedMeansSame(seen: seq<Commit>, commits: seq<Commit>)
    requires seen <= commits
    ensures VersionOf(After(seen)) == VersionOf(After(commits)) <==> seen == commits
    ensures After(seen).None? && After(commits).None? ==> seen == commits
  {
    VersionCounts(seen);
    VersionCounts(commits);
  }

  /** The condition of the write: the row is there with the version that was read, or still not there. */
  predicate SameVersion(read: Option<Row>, cell: Option<Row>) {
    if read.Some? then cell.Some? && cell.value.version == read.value.version else cell.None?
  }

  lemma SameVersionMeansSame(read: Option<Row>, cell: Option<Row>, seen: seq<Commit>, commits: seq<Commit>)
    requires read == After(seen) && cell == After(commits) && seen <= commits
    ensures SameVersion(read, cell) <==> seen == commits
  {
    VersionCounts(seen);
    VersionCounts(commits);
    UnmovedMeansSame(seen, commits);
  }

  /** A version the row had since it had `since` consumptions refused the batch until `retryAt`, at an instant
      between `from` and `to`. */
  ghost predicate RefusedDuring(commits: seq<Commit>, since: nat, from: Instant, to: Instant, inputs: seq<Input>,
                                retryAt: Instant) {
    exists v: nat, at: Instant :: since <= v <= |commits| && from <= at <= to &&
      LatestRefusal(StatesOf(After(commits[..v])), inputs, at, retryAt)
  }

  /** The stored row as one caller sees it, with the other callers' consumptions landing in between. */
  class RateTable {
    var cell: Option<Row>
    var clock: Instant
    const others: nat -> seq<Commit>
    const elapsed: nat -> nat
    var calls: nat
    ghost var commits: seq<Commit>

    ghost predicate Valid()
      reads this
    {
      cell == After(commits) && Serial(commits) && Before(commits, clock)
    }

    /** One consumption as an atomic operation. */
    method CommitAtomically(c: Commit) returns (admitted: bool)
      requires Valid() && c.at == clock
      modifies this`cell, this`commits
      ensures Valid()
      ensures admitted <==> !AnyRejects(StatesOf(old(cell)), c.inputs, c.at)
      ensures commits == if admitted then old(commits) + [c] else old(commits)
    {
      VersionCounts(commits);
      var d := DecideRateLimitBatch(c.inputs, StatesOf(cell), c.at);
      if d.Refused? { return false; }
      AppendSerial(commits, c);
      cell := Some(Row(d.next, if cell.Some? then cell.value.version + 1 else 1));
      commits := commits + [c];
      return true;
    }

    /** The others' turn: each of their attempts, at whatever time it is by then. */
    method Interfere()
      requires Valid()
      modifies this
      ensures Valid() && old(commits) <= commits && old(clock) <= clock && calls == old(calls) + 1
      ensures forall i :: |old(commits)| <= i < |commits| ==>
        exists c :: c in others(old(calls)) && c.caller == commits[i].caller
    {
      var turn := others(calls);
      calls := calls + 1;
      for k := 0 to |turn|
        invariant Valid() && old(commits) <= commits && old(clock) <= clock && calls == old(calls) + 1
        invariant forall i :: |old(commits)| <= i < |commits| ==> exists c :: c in turn && c.caller == commits[i].caller
      {
        clock := clock + elapsed(k);
        var mine := turn[k].(at := clock);
        assert turn[k] in turn;
        var _ := CommitAtomically(mine);
      }
      clock := clock + elapsed(|turn|);
    }

    /** The row is replaced and its version goes up by one. */
    method Overwrite(row: Option<Row>, next: seq<State>, ghost mine: Commit)
      requires After(commits + [mine]) == Some(Row(next, VersionOf(row) + 1))
      requires Serial(commits + [mine]) && mine.at <= clock
      modifies this`cell, this`commits
      ensures Valid() && commits == old(commits) + [mine]
    {
      cell := Some(Row(next, if row.Some? then row.value.version + 1 else 1));
      commits := commits + [mine];
    }

    /** `UPDATE … WHERE version = ?`, or `INSERT OR IGNORE` when no row was read. */
    method WriteIfUnmoved(me: Caller, inputs: seq<Input>, row: Option<Row>, at: Instant, decision: Decision,
                          ghost seen: seq<Commit>)
      returns (written: bool)
      requires Valid() && row == After(seen) && seen <= commits && Before(seen, at) && at <= clock
      requires RateLimit.Decides(StatesOf(row), inputs, at, decision) && decision.Admitted?
      modifies this`cell, this`commits
      ensures Valid()
      ensures written <==> old(commits) == seen
      ensures |commits| > |seen|
      ensures commits == if written then old(commits) + [Commit(me, inputs, at)] else old(commits)
      ensures CommitsOf(commits, me) == CommitsOf(old(commits), me) + if written then 1 else 0
    {
      SameVersionMeansSame(row, cell, seen, commits);
      if !SameVersion(row, cell) { return false; }
      ghost var mine := Commit(me, inputs, at);
      AdmissionExtends(seen, mine, decision, me);
      Overwrite(row, decision.next, mine);
      return true;
    }

    /** The write of a decision, after the others' turn. */
    method WriteLater(me: Caller, inputs: seq<Input>, row: Option<Row>, at: Instant, decision: Decision,
                      ghost seen: seq<Commit>)
      returns (written: bool)
      requires Valid() && row == cell && seen == commits && at == clock
      requires forall n, c :: c in others(n) ==> c.caller != me
      requires RateLimit.Decides(StatesOf(row), inputs, at, decision) && decision.Admitted?
      modifies this
      ensures Valid() && seen <= commits && |seen| < |commits| && old(clock) <= clock && calls == old(calls) + 1
      ensures CommitsOf(commits, me) == CommitsOf(seen, me) + if written then 1 else 0
      ensures written ==> LastIs(commits, me, inputs)
    {
      Interfere();
      NoneOfMine(seen, commits, me);
      VersionCounts(commits);
      written := WriteIfUnmoved(me, inputs, row, at, decision, seen);
    }

    /** One read, decision and versioned write. `None` means somebody else wrote in between. */
    method TryOnce(me: Caller, inputs: seq<Input>) returns (result: Option<Result>)
      requires Valid() && forall n, c :: c in others(n) ==> c.caller != me
      modifies this
      ensures Valid() && old(commits) <= commits
      ensures CommitsOf(commits, me) == CommitsOf(old(commits), me) + if result == Some(Allowed) then 1 else 0
      ensures result != Some(Contended)
      ensures result.None? ==> calls == old(calls) + 2 && |commits| > |old(commits)|
      ensures result == Some(Allowed) ==> commits != [] && LastIs(commits, me, inputs)
      ensures old(clock) <= clock
      ensures result.Some? && result.value.RefusedUntil? ==>
        RefusedDuring(commits, |old(commits)|, old(clock), clock, inputs, result.value.retryAt)
    {
      Interfere();
      NoneOfMine(old(commits), commits, me);
      VersionCounts(commits);
      var row, at := cell, clock;
      ghost var seen := commits;
      var decision := DecideRateLimitBatch(inputs, StatesOf(row), at);
      if decision.Refused? {
        assert commits[..|commits|] == commits;
        return Some(RefusedUntil(decision.retryAt));
      }
      var written := WriteLater(me, inputs, row, at, decision, seen);
      return if written then Some(Allowed) else None;
    }

    /** The D1 loop. Whatever lands between its reads and writes, the row stays serial; this caller adds one
        consumption exactly when it is told "allowed"; a refusal was right about the row at some moment. It gives
        up after five attempts that each lost to somebody else's consumption. */
    method ConsumeOptimistically(me: Caller, inputs: seq<Input>) returns (result: Result)
      requires Valid() && forall n, c :: c in others(n) ==> c.caller != me
      modifies this
      ensures Valid() && old(commits) <= commits
      ensures inputs == [] ==> result == Allowed && commits == old(commits)
      ensures inputs != [] ==>
        CommitsOf(commits, me) == CommitsOf(old(commits), me) + if result == Allowed then 1 else 0
      ensures inputs != [] && result == Allowed ==> commits != [] && LastIs(commits, me, inputs)
      ensures result.RefusedUntil? ==>
        RefusedDuring(commits, |old(commits)|, old(clock), clock, inputs, result.retryAt)
      ensures result.Contended? ==> calls == old(calls) + 2 * 5 && |commits| >= |old(commits)| + 5
    {
      if inputs == [] { return Allowed; }
      for attempt := 0 to MAX_ATTEMPTS
        invariant Valid() && old(commits) <= commits && old(clock) <= clock
        invariant CommitsOf(commits, me) == CommitsOf(old(commits), me)
        invariant calls == old(calls) + 2 * attempt && |commits| >= |old(commits)| + attempt
      {
        var outcome := TryOnce(me, inputs);
        if outcome.Some? { return outcome.value; }
      }
      return Contended;
    }

    /** The Postgres form, which nothing can interrupt. */
    method ConsumeLocked(me: Caller, inputs: seq<Input>) returns (result: Result)
      requires Valid()
      modifies this`cell, this`commits
      ensures Valid()
      ensures result == Allowed <==> !AnyRejects(StatesOf(old(cell)), inputs, clock)
      ensures commits ==
        if result == Allowed && inputs != [] then old(commits) + [Commit(me, inputs, clock)] else old(commits)
      ensures result.RefusedUntil? <==> result != Allowed
      ensures result.RefusedUntil? ==> LatestRefusal(StatesOf(old(cell)), inputs, clock, result.retryAt)
    {
      if inputs == [] { return Allowed; }
      VersionCounts(commits);
      var decision := DecideRateLimitBatch(inputs, StatesOf(cell), clock);
      if decision.Refused? { return RefusedUntil(decision.retryAt); }
      AppendSerial(commits, Commit(me, inputs, clock));
      cell := Some(Row(decision.next, if cell.Some? then cell.value.version + 1 else 1));
      commits := commits + [Commit(me, inputs, clock)];
      return Allowed;
    }
  }

  lemma {:induction false} NoneOfMine(before: seq<Commit>, after: seq<Commit>, me: Caller)
    requires before <= after
    requires forall i :: |before| <= i < |after| ==> after[i].caller != me
    ensures CommitsOf(after, me) == CommitsOf(before, me)
    decreases |after|
  {
    if |after| > |before| {
      NoneOfMine(before, after[..|after| - 1], me);
    } else {
      assert before == after;
    }
  }
}
