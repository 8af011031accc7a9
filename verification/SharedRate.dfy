/** What a rate policy lets through when any number of callers share its stored row. */
module SharedRate {
  import opened Basics
  import opened RateLimit
  import opened RateBound
  import opened OptimisticRate

  function Times(commits: seq<Commit>): (times: seq<Instant>)
    ensures |times| == |commits| && forall i :: 0 <= i < |commits| ==> times[i] == commits[i].at
  {
    seq(|commits|, i requires 0 <= i < |commits| => commits[i].at)
  }

  /** Every consumption is of these policies, with bucket keys computed at the instant of the decision. */
  ghost predicate OfPolicies(policies: seq<Policy>, commits: seq<Commit>)
    requires WellFormed(policies)
  {
    forall i :: 0 <= i < |commits| ==> commits[i].inputs == Inputs(policies, commits[i].at)
  }

  function CommitsIn(commits: seq<Commit>, p: Policy, bucket: int): nat {
    if commits == [] then 0
    else
      var n := |commits| - 1;
      CommitsIn(commits[..n], p, bucket) + if p.window(commits[n].at) == bucket then 1 else 0
  }

  function CommitsBetween(commits: seq<Commit>, from: Instant, to: Instant): nat {
    if commits == [] then 0
    else
      var n := |commits| - 1;
      CommitsBetween(commits[..n], from, to) + if from <= commits[n].at < to then 1 else 0
  }

  lemma SerialPrefix(commits: seq<Commit>)
    requires Serial(commits) && commits != []
    ensures Serial(commits[..|commits| - 1])
    ensures AdmissibleAt(commits, |commits| - 1)
  {
    var before := commits[..|commits| - 1];
    forall i: nat | i < |before| ensures AdmissibleAt(before, i) {
      assert AdmissibleAt(commits, i) && before[..i] == commits[..i];
    }
  }

  /** The shared row is the row of one caller who made all the consumptions, every one of which was admitted. */
  lemma {:induction false} SharedIsSequential(policies: seq<Policy>, commits: seq<Commit>)
    requires WellFormed(policies) && Serial(commits) && OfPolicies(policies, commits)
    ensures StatesOf(After(commits)) == StatesAfter(policies, Times(commits))
    ensures commits != [] ==> LastAdmitted(policies, Times(commits))
  {
    if commits != [] {
      var n := |commits| - 1;
      SerialPrefix(commits);
      SharedIsSequential(policies, commits[..n]);
      LastStep(policies, commits);
    }
  }

  lemma LastStep(policies: seq<Policy>, commits: seq<Commit>)
    requires WellFormed(policies) && commits != [] && OfPolicies(policies, commits)
    requires AdmissibleAt(commits, |commits| - 1)
    requires StatesOf(After(commits[..|commits| - 1])) == StatesAfter(policies, Times(commits[..|commits| - 1]))
    ensures StatesOf(After(commits)) == StatesAfter(policies, Times(commits)) && LastAdmitted(policies, Times(commits))
  {
    var n := |commits| - 1;
    assert Times(commits)[..n] == Times(commits[..n]);
  }

  lemma {:induction false} CountsAgree(policies: seq<Policy>, commits: seq<Commit>, p: Policy, bucket: int,
                                       from: Instant, to: Instant)
    requires WellFormed(policies) && Serial(commits) && OfPolicies(policies, commits)
    ensures CommitsIn(commits, p, bucket) == AdmittedIn(policies, Times(commits), p, bucket)
    ensures CommitsBetween(commits, from, to) == AdmittedBetween(policies, Times(commits), from, to)
  {
    if commits != [] {
      var n := |commits| - 1;
      SerialPrefix(commits);
      CountsAgree(policies, commits[..n], p, bucket, from, to);
      SharedIsSequential(policies, commits);
      assert Times(commits)[..n] == Times(commits[..n]);
    }
  }

  lemma SerialBound(policies: seq<Policy>, commits: seq<Commit>, k: nat, bucket: int, from: Instant)
    requires WellFormed(policies) && k < |policies| && Serial(commits) && OfPolicies(policies, commits)
    ensures CommitsIn(commits, policies[k], bucket) <= policies[k].limit
    ensures CommitsBetween(commits, from, from + WindowMs(policies[k])) <= 2 * policies[k].limit
  {
    CountsAgree(policies, commits, policies[k], bucket, from, from + WindowMs(policies[k]));
    TimesAgree(commits);
    WindowBound(policies, Times(commits), k, bucket);
    SlidingBound(policies, Times(commits), k, from);
  }

  lemma TimesAgree(commits: seq<Commit>)
    requires Serial(commits)
    ensures NonDecreasing(Times(commits))
  {
    assert TimesOrdered(commits);
  }

  /** However the callers' reads, decisions and writes interleave, each window of each policy admits at most
      `limit`, and any interval as long as the window at most twice that. */
  lemma SharedBound(run: seq<Machine>, i: nat, policies: seq<Policy>, k: nat, bucket: int, from: Instant)
    requires Behaviour(run) && i < |run| && WellFormed(policies) && k < |policies|
    requires OfPolicies(policies, run[i].commits)
    ensures CommitsIn(run[i].commits, policies[k], bucket) <= policies[k].limit
    ensures CommitsBetween(run[i].commits, from, from + WindowMs(policies[k])) <= 2 * policies[k].limit
  {
    BehaviourSound(run, i);
    SerialBound(policies, run[i].commits, k, bucket, from);
  }

  // ------------------------------------------------------- a stale bucket key

  /** A consumption leaves an entry for its own buckets and forgets every other. */
  lemma {:induction false} OnlyOwnBucketsStay(states: seq<State>, inputs: seq<Input>, now: Instant, scope: Scope,
                                              bucket: int)
    ensures Lookup(NextStates(states, inputs, now), scope, bucket).Some? <==>
      exists i :: 0 <= i < |inputs| && inputs[i].scope == scope && inputs[i].bucketKey == bucket
  {
    if inputs != [] {
      var n := |inputs| - 1;
      var next := NextStates(states, inputs, now);
      assert next[..n] == NextStates(states, inputs[..n], now);
      OnlyOwnBucketsStay(states, inputs[..n], now, scope, bucket);
      if inputs[n].scope != scope || inputs[n].bucketKey != bucket {
        forall i | 0 <= i < |inputs| && inputs[i].scope == scope && inputs[i].bucketKey == bucket
          ensures i < n && inputs[..n][i] == inputs[i]
        {
        }
      }
    }
  }

  /** So a key computed before the window turned makes the new window's count start over: with a limit of one,
      the new window admits two. */
  lemma StaleKeyForgets(scope: Scope, t: Instant)
    ensures
      var stale, newer := Input(scope, 0, 1, 60), Input(scope, 1, 1, 60);
      var first := NextStates([], [newer], t);
      var second := NextStates(first, [stale], t);
      && AnyRejects(first, [newer], t)
      && !AnyRejects([], [newer], t) && !AnyRejects(first, [stale], t) && !AnyRejects(second, [newer], t)
  {
    var stale, newer := Input(scope, 0, 1, 60), Input(scope, 1, 1, 60);
    var first := NextStates([], [newer], t);
    assert first == [State(scope, 1, 1, t + 60_000)];
    assert Lookup(first, scope, 1) == Some(first[0]) && Lookup(first[..0], scope, 0).None?;
    assert Rejects(first, [newer][0], t);
    var second := NextStates(first, [stale], t);
    assert second == [State(scope, 0, 1, t + 60_000)];
    assert Lookup(second[..0], scope, 1).None?;
  }

  // ----------------------------------------------------------- arbitrary keys

  /** The stored entry for the bucket of `p`. */
  function Entry(commits: seq<Commit>, p: Input): Option<State> {
    Lookup(StatesOf(After(commits)), p.scope, p.bucketKey)
  }

  /** Whoever consumes from that bucket does so with this limit and window. */
  predicate OneBucket(inputs: seq<Input>, p: Input) {
    forall i :: 0 <= i < |inputs| && inputs[i].scope == p.scope && inputs[i].bucketKey == p.bucketKey ==> inputs[i] == p
  }

  predicate Agree(commits: seq<Commit>, p: Input) {
    commits == [] || (Agree(commits[..|commits| - 1], p) && OneBucket(commits[|commits| - 1].inputs, p))
  }

  lemma {:induction false} AgreePrefix(commits: seq<Commit>, n: nat, p: Input)
    requires Agree(commits, p) && n <= |commits|
    ensures Agree(commits[..n], p)
  {
    if n < |commits| {
      var before := commits[..|commits| - 1];
      AgreePrefix(before, n, p);
      assert before[..n] == commits[..n];
    } else {
      assert commits[..n] == commits;
    }
  }

  lemma {:induction false} LookupNext(states: seq<State>, inputs: seq<Input>, now: Instant, p: Input)
    requires OneBucket(inputs, p)
    ensures Lookup(NextStates(states, inputs, now), p.scope, p.bucketKey) ==
      if p in inputs then Some(NextState(states, p, now)) else None
  {
    if inputs != [] {
      var n := |inputs| - 1;
      var rest := inputs[..n];
      assert inputs == rest + [inputs[n]];
      assert NextStates(states, inputs, now)[..n] == NextStates(states, rest, now);
      LookupNext(states, rest, now, p);
    }
  }

  /** What a consumption at `at` makes of the entry `e`, if it is for that bucket (`touched`) or not. */
  function Moved(e: Option<State>, touched: bool, p: Input, at: Instant): Option<State> {
    if !touched then None
    else if e.Some? && e.value.expiresAt > at then Some(e.value.(count := e.value.count + 1))
    else Some(State(p.scope, p.bucketKey, 1, at + p.windowSeconds * 1000))
  }

  lemma {:induction false} LookupNames(states: seq<State>, scope: Scope, bucket: int)
    ensures var e := Lookup(states, scope, bucket); e.Some? ==> e.value.scope == scope && e.value.bucketKey == bucket
  {
    if states != [] { LookupNames(states[..|states| - 1], scope, bucket); }
  }

  lemma EntryMoves(commits: seq<Commit>, p: Input)
    requires commits != [] && Agree(commits, p)
    ensures var n := |commits| - 1;
      Entry(commits, p) == Moved(Entry(commits[..n], p), p in commits[n].inputs, p, commits[n].at)
  {
    var n := |commits| - 1;
    var states := StatesOf(After(commits[..n]));
    LookupNext(states, commits[n].inputs, commits[n].at, p);
    LookupNames(states, p.scope, p.bucketKey);
  }

  lemma {:induction false} CountsArePositive(commits: seq<Commit>, p: Input)
    requires Agree(commits, p)
    ensures Entry(commits, p).Some? ==> Entry(commits, p).value.count >= 1
  {
    if commits != [] {
      EntryMoves(commits, p);
      CountsArePositive(commits[..|commits| - 1], p);
    }
  }

  /** The entry `e` after `k` more consumptions from its bucket. */
  function Counted(e: State, k: nat): Option<State> { Some(e.(count := e.count + k)) }

  lemma CountedOneMore(e: State, k: nat, before: Option<State>, touched: bool, p: Input, at: Instant)
    requires e.count >= 1 && at < e.expiresAt
    ensures Moved(before, touched, p, at) == Counted(e, k + 1) <==> touched && before == Counted(e, k)
  {
  }

  /** From position `from` on all consumptions are from the bucket. */
  predicate AllFrom(commits: seq<Commit>, from: nat, p: Input) {
    |commits| <= from || (AllFrom(commits[..|commits| - 1], from, p) && p in commits[|commits| - 1].inputs)
  }

  predicate BeforeFrom(commits: seq<Commit>, from: nat, until: Instant) {
    |commits| <= from || (BeforeFrom(commits[..|commits| - 1], from, until) && commits[|commits| - 1].at < until)
  }

  /** Until it expires, an entry goes on counting exactly up to the first consumption that is not from its bucket,
      whatever keys the callers computed. */
  lemma {:induction false} KeptExactlyWhile(commits: seq<Commit>, from: nat, p: Input, e: State)
    requires from <= |commits| && Agree(commits, p) && BeforeFrom(commits, from, e.expiresAt)
    requires Entry(commits[..from], p) == Some(e)
    ensures Entry(commits, p) == Counted(e, |commits| - from) <==> AllFrom(commits, from, p)
  {
    if from == |commits| {
      assert commits[..from] == commits;
    } else {
      var n := |commits| - 1;
      var before := commits[..n];
      assert before[..from] == commits[..from];
      KeptExactlyWhile(before, from, p, e);
      AgreePrefix(commits, from, p);
      CountsArePositive(commits[..from], p);
      KeptOneMore(commits, from, p, e);
    }
  }

  lemma KeptOneMore(commits: seq<Commit>, from: nat, p: Input, e: State)
    requires from < |commits| && Agree(commits, p) && e.count >= 1 && commits[|commits| - 1].at < e.expiresAt
    requires var before := commits[..|commits| - 1];
      Entry(before, p) == Counted(e, |before| - from) <==> AllFrom(before, from, p)
    ensures Entry(commits, p) == Counted(e, |commits| - from) <==> AllFrom(commits, from, p)
  {
    var n := |commits| - 1;
    EntryMoves(commits, p);
    CountedOneMore(e, n - from, Entry(commits[..n], p), p in commits[n].inputs, p, commits[n].at);
  }

  /** Consumptions from the bucket. */
  function Under(commits: seq<Commit>, p: Input): nat {
    if commits == [] then 0
    else Under(commits[..|commits| - 1], p) + if p in commits[|commits| - 1].inputs then 1 else 0
  }

  predicate LastUnder(commits: seq<Commit>, p: Input) { commits != [] && p in commits[|commits| - 1].inputs }

  /** How often consumption turns to the bucket from another one. */
  function Turns(commits: seq<Commit>, p: Input): nat {
    if commits == [] then 0
    else
      var before := commits[..|commits| - 1];
      Turns(before, p) + if LastUnder(commits, p) && !LastUnder(before, p) then 1 else 0
  }

  /** All consumptions from the bucket happen within one window's length from `from` on. */
  predicate Within(commits: seq<Commit>, p: Input, from: Instant) {
    forall i :: 0 <= i < |commits| && p in commits[i].inputs ==>
      from <= commits[i].at < from + p.windowSeconds * 1000
  }

  /** `under` consumptions in `turns` turns, with `e` for the entry if the last of them was from the bucket. */
  predicate Bounded(p: Input, under: nat, turns: nat, e: Option<State>, last: bool, until: Instant) {
    if last then
      turns >= 1 && e.Some? && e.value.count <= p.limit && e.value.expiresAt >= until &&
      under <= p.limit * (turns - 1) + e.value.count
    else e.None? && under <= p.limit * turns
  }

  lemma BoundedNext(p: Input, under: nat, turns: nat, e: Option<State>, last: bool, until: Instant, touched: bool,
                    at: Instant)
    requires p.limit >= 1 && Bounded(p, under, turns, e, last, until)
    requires touched ==> at < until <= at + p.windowSeconds * 1000
    requires touched && e.Some? && e.value.expiresAt > at ==> e.value.count < p.limit
    ensures Bounded(p, under + if touched then 1 else 0, turns + if touched && !last then 1 else 0,
                    Moved(e, touched, p, at), touched, until)
  {
    LimitOnce(p.limit, turns);
    LimitOnce(p.limit, turns + 1);
  }

  /** An admitted consumption found room. */
  lemma FoundRoom(commits: seq<Commit>, p: Input)
    requires commits != [] && AdmissibleAt(commits, |commits| - 1) && LastUnder(commits, p)
    ensures var e := Entry(commits[..|commits| - 1], p);
      e.Some? && e.value.expiresAt > commits[|commits| - 1].at ==> e.value.count < p.limit
  {
    var n := |commits| - 1;
    var k :| 0 <= k < |commits[n].inputs| && commits[n].inputs[k] == p;
    assert !Rejects(StatesOf(After(commits[..n])), commits[n].inputs[k], commits[n].at);
  }

  lemma {:induction false} TurnsBounded(commits: seq<Commit>, p: Input, from: Instant)
    requires Serial(commits) && Agree(commits, p) && Within(commits, p, from) && p.limit >= 1
    ensures Bounded(p, Under(commits, p), Turns(commits, p), Entry(commits, p), LastUnder(commits, p),
                    from + p.windowSeconds * 1000)
  {
    if commits != [] {
      var n := |commits| - 1;
      var before := commits[..n];
      SerialPrefix(commits);
      TurnsBounded(before, p, from);
      EntryMoves(commits, p);
      if LastUnder(commits, p) { FoundRoom(commits, p); }
      BoundedNext(p, Under(before, p), Turns(before, p), Entry(before, p), LastUnder(before, p),
                  from + p.windowSeconds * 1000, LastUnder(commits, p), commits[n].at);
    }
  }

  /** Whatever keys the callers computed, a bucket admits at most `limit` each time consumption turns to it. */
  lemma BoundPerTurn(commits: seq<Commit>, p: Input, from: Instant)
    requires Serial(commits) && Agree(commits, p) && Within(commits, p, from) && p.limit >= 1
    ensures Under(commits, p) <= p.limit * Turns(commits, p)
  {
    TurnsBounded(commits, p, from);
    LimitOnce(p.limit, Turns(commits, p));
  }

  lemma LimitOnce(limit: int, turns: int)
    ensures limit * turns == limit * (turns - 1) + limit
  {
  }

  /** The batch consumes from this bucket of the scope, and from no other. */
  predicate KeyIs(inputs: seq<Input>, scope: Scope, key: int) {
    && (exists x :: x in inputs && x.scope == scope)
    && (forall x :: x in inputs && x.scope == scope ==> x.bucketKey == key)
  }

  /** The bucket keys a scope was consumed under. */
  predicate KeyedBy(commits: seq<Commit>, scope: Scope, keys: seq<int>) {
    |keys| == |commits| && forall i :: 0 <= i < |commits| ==> KeyIs(commits[i].inputs, scope, keys[i])
  }

  lemma UnderItsKey(inputs: seq<Input>, p: Input, key: int)
    requires KeyIs(inputs, p.scope, key) && OneBucket(inputs, p)
    ensures p in inputs <==> key == p.bucketKey
  {
    var x :| x in inputs && x.scope == p.scope;
    var i :| 0 <= i < |inputs| && inputs[i] == x;
  }

  /** Where the keys never go back, consumption turns to a bucket at most once. */
  lemma {:induction false} TurnsOnce(commits: seq<Commit>, p: Input, keys: seq<int>)
    requires Agree(commits, p) && KeyedBy(commits, p.scope, keys) && NonDecreasing(keys)
    ensures Turns(commits, p) <= 1
    ensures keys != [] ==> (LastUnder(commits, p) <==> keys[|keys| - 1] == p.bucketKey)
    ensures keys != [] && keys[|keys| - 1] < p.bucketKey ==> Turns(commits, p) == 0
  {
    if commits != [] {
      var n := |commits| - 1;
      TurnsOnce(commits[..n], p, keys[..n]);
      UnderItsKey(commits[n].inputs, p, keys[n]);
      if n > 0 { assert keys[n - 1] <= keys[n]; }
    }
  }

  /** So as long as the keys of a scope never go back, each of its buckets admits at most `limit`, even if a key was
      computed before the window turned. */
  lemma OrderedKeysBound(commits: seq<Commit>, p: Input, keys: seq<int>, from: Instant)
    requires Serial(commits) && Agree(commits, p) && Within(commits, p, from) && p.limit >= 1
    requires KeyedBy(commits, p.scope, keys) && NonDecreasing(keys)
    ensures Under(commits, p) <= p.limit
  {
    BoundPerTurn(commits, p, from);
    TurnsOnce(commits, p, keys);
    if Turns(commits, p) == 0 { assert p.limit * Turns(commits, p) == 0; }
  }

  /** And that of any number of callers who share the row. */
  lemma SharedOrderedKeys(run: seq<Machine>, i: nat, p: Input, keys: seq<int>, from: Instant)
    requires Behaviour(run) && i < |run| && p.limit >= 1
    requires Agree(run[i].commits, p) && Within(run[i].commits, p, from)
    requires KeyedBy(run[i].commits, p.scope, keys) && NonDecreasing(keys)
    ensures Under(run[i].commits, p) <= p.limit
  {
    BehaviourSound(run, i);
    OrderedKeysBound(run[i].commits, p, keys, from);
  }
}
