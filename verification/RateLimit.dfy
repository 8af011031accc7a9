/** The batch rate-limit decision (apps/api/src/job-retry-policy.ts): all of a batch's buckets are consumed
    together or none is. */
module RateLimit {
  import opened Basics

  type Scope(==, !new)

  datatype Input = Input(scope: Scope, bucketKey: int, limit: int, windowSeconds: int)

  datatype State = State(scope: Scope, bucketKey: int, count: int, expiresAt: Instant)

  datatype Decision =
    | Refused(counts: map<Scope, int>, retryAt: Instant)
    | Admitted(counts: map<Scope, int>, next: seq<State>)

  /** The entry for a bucket; of several, the last one listed. */
  function Lookup(states: seq<State>, scope: Scope, bucketKey: int): Option<State> {
    if states == [] then None
    else
      var last := states[|states| - 1];
      if last.scope == scope && last.bucketKey == bucketKey then Some(last)
      else Lookup(states[..|states| - 1], scope, bucketKey)
  }

  predicate Active(states: seq<State>, input: Input, now: Instant) {
    var existing := Lookup(states, input.scope, input.bucketKey);
    existing.Some? && existing.value.expiresAt > now
  }

  function CountNow(states: seq<State>, input: Input, now: Instant): int {
    if Active(states, input, now) then Lookup(states, input.scope, input.bucketKey).value.count else 0
  }

  predicate Rejects(states: seq<State>, input: Input, now: Instant) {
    CountNow(states, input, now) >= input.limit && Lookup(states, input.scope, input.bucketKey).Some?
  }

  function NextState(states: seq<State>, input: Input, now: Instant): State {
    State(input.scope, input.bucketKey, CountNow(states, input, now) + 1,
          if Active(states, input, now) then Lookup(states, input.scope, input.bucketKey).value.expiresAt
          else now + input.windowSeconds * 1000)
  }

  function NextStates(states: seq<State>, inputs: seq<Input>, now: Instant): (next: seq<State>)
    ensures |next| == |inputs|
    ensures forall i :: 0 <= i < |inputs| ==> next[i] == NextState(states, inputs[i], now)
  {
    seq(|inputs|, i requires 0 <= i < |inputs| => NextState(states, inputs[i], now))
  }

  /** `counts[scope]` for the last input of each scope. */
  function CountsBefore(states: seq<State>, inputs: seq<Input>, now: Instant): map<Scope, int> {
    if inputs == [] then map[]
    else
      var n := |inputs| - 1;
      CountsBefore(states, inputs[..n], now)[inputs[n].scope := CountNow(states, inputs[n], now)]
  }

  function CountsAfter(next: seq<State>): map<Scope, int> {
    if next == [] then map[]
    else CountsAfter(next[..|next| - 1])[next[|next| - 1].scope := next[|next| - 1].count]
  }

  predicate AnyRejects(states: seq<State>, inputs: seq<Input>, now: Instant) {
    exists i :: 0 <= i < |inputs| && Rejects(states, inputs[i], now)
  }

  function ExpiryOf(states: seq<State>, input: Input): Instant {
    match Lookup(states, input.scope, input.bucketKey)
    case None => 0
    case Some(state) => state.expiresAt
  }

  /** `retryAt` is the latest expiry among the buckets that refuse. */
  ghost predicate LatestRefusal(states: seq<State>, inputs: seq<Input>, now: Instant, retryAt: Instant) {
    && (exists i :: 0 <= i < |inputs| && Rejects(states, inputs[i], now) && ExpiryOf(states, inputs[i]) == retryAt)
    && (forall i :: 0 <= i < |inputs| && Rejects(states, inputs[i], now) ==> ExpiryOf(states, inputs[i]) <= retryAt)
  }

  /** What a decision must be. */
  ghost predicate Decides(states: seq<State>, inputs: seq<Input>, now: Instant, d: Decision) {
    if AnyRejects(states, inputs, now) then
      d.Refused? && d.counts == CountsBefore(states, inputs, now) && LatestRefusal(states, inputs, now, d.retryAt)
    else
      d == Admitted(CountsAfter(NextStates(states, inputs, now)), NextStates(states, inputs, now))
  }

  lemma DecisionUnique(states: seq<State>, inputs: seq<Input>, now: Instant, a: Decision, b: Decision)
    requires Decides(states, inputs, now, a) && Decides(states, inputs, now, b)
    ensures a == b
  {
    if AnyRejects(states, inputs, now) {
      var i :| 0 <= i < |inputs| && Rejects(states, inputs[i], now) &&
        ExpiryOf(states, inputs[i]) == a.retryAt;
      var j :| 0 <= j < |inputs| && Rejects(states, inputs[j], now) &&
        ExpiryOf(states, inputs[j]) == b.retryAt;
      assert a.retryAt <= b.retryAt && b.retryAt <= a.retryAt;
    }
  }

  method IndexStates(states: seq<State>) returns (byKey: map<(Scope, int), State>)
    ensures forall s, b :: (s, b) in byKey <==> Lookup(states, s, b).Some?
    ensures forall s, b :: (s, b) in byKey ==> byKey[(s, b)] == Lookup(states, s, b).value
  {
    byKey := map[];
    for i := 0 to |states|
      invariant forall s, b :: (s, b) in byKey <==> Lookup(states[..i], s, b).Some?
      invariant forall s, b :: (s, b) in byKey ==> byKey[(s, b)] == Lookup(states[..i], s, b).value
    {
      byKey := byKey[(states[i].scope, states[i].bucketKey) := states[i]];
      assert states[..i + 1][..i] == states[..i];
    }
    assert states[..|states|] == states;
  }

  method DecideRateLimitBatch(inputs: seq<Input>, currentStates: seq<State>, now: Instant) returns (decision: Decision)
    ensures Decides(currentStates, inputs, now, decision)
  {
    var nextStates, counts, rejectedUntil := SurveyInputs(inputs, currentStates, now);
    if |rejectedUntil| > 0 {
      var latest := rejectedUntil[0];
      for i := 1 to |rejectedUntil|
        invariant latest in rejectedUntil && forall k :: 0 <= k < i ==> rejectedUntil[k] <= latest
      {
        if rejectedUntil[i] > latest { latest := rejectedUntil[i]; }
      }
      return Refused(counts, latest);
    }
    var after: map<Scope, int> := map[];
    for i := 0 to |nextStates|
      invariant after == CountsAfter(nextStates[..i])
    {
      after := after[nextStates[i].scope := nextStates[i].count];
      assert nextStates[..i + 1][..i] == nextStates[..i];
    }
    assert nextStates[..|nextStates|] == nextStates;
    return Admitted(after, nextStates);
  }

  /** The loop over the inputs. */
  method SurveyInputs(inputs: seq<Input>, currentStates: seq<State>, now: Instant)
    returns (nextStates: seq<State>, counts: map<Scope, int>, rejectedUntil: seq<Instant>)
    ensures nextStates == NextStates(currentStates, inputs, now)
    ensures counts == CountsBefore(currentStates, inputs, now)
    ensures forall k :: 0 <= k < |inputs| && Rejects(currentStates, inputs[k], now) ==>
      ExpiryOf(currentStates, inputs[k]) in rejectedUntil
    ensures forall t :: t in rejectedUntil ==>
      exists k :: 0 <= k < |inputs| && Rejects(currentStates, inputs[k], now) && ExpiryOf(currentStates, inputs[k]) == t
  {
    var currentByKey := IndexStates(currentStates);
    nextStates, counts, rejectedUntil := [], map[], [];
    for i := 0 to |inputs|
      invariant nextStates == NextStates(currentStates, inputs, now)[..i]
      invariant counts == CountsBefore(currentStates, inputs[..i], now)
      invariant forall k :: 0 <= k < i && Rejects(currentStates, inputs[k], now) ==>
        ExpiryOf(currentStates, inputs[k]) in rejectedUntil
      invariant forall t :: t in rejectedUntil ==>
        exists k :: 0 <= k < i && Rejects(currentStates, inputs[k], now) && ExpiryOf(currentStates, inputs[k]) == t
    {
      var input := inputs[i];
      var key := (input.scope, input.bucketKey);
      var existing := if key in currentByKey then Some(currentByKey[key]) else None;
      assert existing == Lookup(currentStates, input.scope, input.bucketKey);
      var active := existing.Some? && existing.value.expiresAt > now;
      var count := if active then existing.value.count else 0;
      counts := counts[input.scope := count];
      if count >= input.limit && existing.Some? { rejectedUntil := rejectedUntil + [existing.value.expiresAt]; }
      nextStates := nextStates + [State(input.scope, input.bucketKey, count + 1,
        if active then existing.value.expiresAt else now + input.windowSeconds * 1000)];
      assert inputs[..i + 1][..i] == inputs[..i];
    }
    assert inputs[..|inputs|] == inputs;
  }
}
