/** How much a rate policy lets through. Bucket keys are aligned windows of the clock and every stored expiry
    lies at or past the end of its window, so a count is never forgotten while its window lasts. */
module RateBound {
  import opened Basics
  import opened RateLimit

  /** A rate policy. `window` numbers the window an instant falls in; it is the bucket key. */
  datatype Policy = Policy(scope: Scope, limit: int, windowSeconds: int, window: Instant -> int)

  function WindowMs(p: Policy): int { p.windowSeconds * 1000 }

  /** Windows follow each other and none is longer or shorter than the policy's length. */
  ghost predicate Aligned(p: Policy) {
    forall t, u :: t <= u ==>
      && p.window(t) <= p.window(u)
      && (u < t + WindowMs(p) ==> p.window(u) <= p.window(t) + 1)
      && (u >= t + WindowMs(p) ==> p.window(u) >= p.window(t) + 1)
  }

  lemma WindowsStep(p: Policy, t: Instant, u: Instant)
    requires Aligned(p) && t <= u
    ensures p.window(t) <= p.window(u)
    ensures u < t + WindowMs(p) ==> p.window(u) <= p.window(t) + 1
    ensures u >= t + WindowMs(p) ==> p.window(u) >= p.window(t) + 1
  {
  }

  /** Two instants of one window are less than a window apart. */
  lemma SameWindow(p: Policy, t: Instant)
    requires Aligned(p)
    ensures forall u :: p.window(u) == p.window(t) ==> u < t + WindowMs(p)
  {
    forall u | u >= t + WindowMs(p) && u >= t ensures p.window(u) != p.window(t) { WindowsStep(p, t, u); }
  }

  ghost predicate WellFormed(policies: seq<Policy>) {
    && (forall i :: 0 <= i < |policies| ==>
          policies[i].limit >= 1 && policies[i].windowSeconds >= 1 && Aligned(policies[i]))
    && (forall i, j :: 0 <= i < j < |policies| ==> policies[i].scope != policies[j].scope)
  }

  /** `rateLimitInputs` (apps/worker/src/job-handler.ts): the window policy divides the clock by the window's length;
      the daily policy keys its bucket by the Shanghai date, days of 86400 seconds shifted by eight hours. */
  function WindowPolicy(scope: Scope, limit: int, windowSeconds: int): Policy
    requires windowSeconds >= 1
  {
    Policy(scope, limit, windowSeconds, (t: Instant) => t / (windowSeconds * 1000))
  }

  function DailyPolicy(scope: Scope, limit: int): Policy {
    Policy(scope, limit, 86_400, (t: Instant) => (t + 8 * 3_600_000) / 86_400_000)
  }

  lemma ProductMonotone(a: int, b: int, w: int)
    requires a <= b && w >= 1
    ensures a * w <= b * w
  {
  }

  lemma QuotientsStep(a: int, b: int, w: int)
    requires a <= b && w >= 1
    ensures a / w <= b / w
    ensures b < a + w ==> b / w <= a / w + 1
    ensures b >= a + w ==> b / w >= a / w + 1
  {
    var p, q := a / w, b / w;
    assert p * w <= a < (p + 1) * w && q * w <= b < (q + 1) * w;
    if q < p { ProductMonotone(q + 1, p, w); }
    assert (p + 2) * w == (p + 1) * w + w && (q + 1) * w == q * w + w;
    if b < a + w && q > p + 1 { ProductMonotone(p + 2, q, w); }
    if b >= a + w && q < p + 1 { ProductMonotone(q, p, w); }
  }

  /** The policies the worker really uses are aligned. */
  lemma PoliciesAligned(scope: Scope, limit: int, windowSeconds: int)
    requires windowSeconds >= 1
    ensures Aligned(WindowPolicy(scope, limit, windowSeconds)) && Aligned(DailyPolicy(scope, limit))
  {
    var p, d := WindowPolicy(scope, limit, windowSeconds), DailyPolicy(scope, limit);
    forall t, u | t <= u
      ensures p.window(t) <= p.window(u)
      ensures u < t + WindowMs(p) ==> p.window(u) <= p.window(t) + 1
      ensures u >= t + WindowMs(p) ==> p.window(u) >= p.window(t) + 1
    {
      QuotientsStep(t, u, windowSeconds * 1000);
    }
  }

  function Inputs(policies: seq<Policy>, t: Instant): (inputs: seq<Input>)
    requires WellFormed(policies)
    ensures |inputs| == |policies|
    ensures forall i :: 0 <= i < |policies| ==>
      inputs[i] == Input(policies[i].scope, policies[i].window(t), policies[i].limit, policies[i].windowSeconds)
  {
    seq(|policies|, i requires 0 <= i < |policies| =>
      Input(policies[i].scope, policies[i].window(t), policies[i].limit, policies[i].windowSeconds))
  }

  predicate NonDecreasing(times: seq<Instant>) { forall i, j :: 0 <= i <= j < |times| ==> times[i] <= times[j] }

  /** The stored states after attempts at the given times. */
  function StatesAfter(policies: seq<Policy>, times: seq<Instant>): seq<State>
    requires WellFormed(policies)
  {
    if times == [] then []
    else
      var n := |times| - 1;
      var before := StatesAfter(policies, times[..n]);
      if AnyRejects(before, Inputs(policies, times[n]), times[n]) then before
      else NextStates(before, Inputs(policies, times[n]), times[n])
  }

  /** The last attempt was admitted. */
  predicate LastAdmitted(policies: seq<Policy>, times: seq<Instant>)
    requires WellFormed(policies) && times != []
  {
    var n := |times| - 1;
    !AnyRejects(StatesAfter(policies, times[..n]), Inputs(policies, times[n]), times[n])
  }

  /** Admitted attempts whose instant falls in window `bucket` of policy `p`. */
  function AdmittedIn(policies: seq<Policy>, times: seq<Instant>, p: Policy, bucket: int): nat
    requires WellFormed(policies)
  {
    if times == [] then 0
    else
      var n := |times| - 1;
      AdmittedIn(policies, times[..n], p, bucket) +
        if LastAdmitted(policies, times) && p.window(times[n]) == bucket then 1 else 0
  }

  function AdmittedBetween(policies: seq<Policy>, times: seq<Instant>, from: Instant, to: Instant): nat
    requires WellFormed(policies)
  {
    if times == [] then 0
    else
      var n := |times| - 1;
      AdmittedBetween(policies, times[..n], from, to) +
        if LastAdmitted(policies, times) && from <= times[n] < to then 1 else 0
  }

  /** One entry per policy, in order; each counts the admissions of the newest window that had any. */
  ghost predicate Tracks(policies: seq<Policy>, times: seq<Instant>, states: seq<State>)
    requires WellFormed(policies)
  {
    if states == [] then forall i, b :: 0 <= i < |policies| ==> AdmittedIn(policies, times, policies[i], b) == 0
    else
      |states| == |policies| && forall i :: 0 <= i < |policies| ==> TracksOne(policies, times, policies[i], states[i])
  }

  ghost predicate TracksOne(policies: seq<Policy>, times: seq<Instant>, p: Policy, state: State)
    requires WellFormed(policies)
  {
    && times != [] && state.scope == p.scope
    && state.bucketKey <= p.window(times[|times| - 1])
    && state.count == AdmittedIn(policies, times, p, state.bucketKey)
    && (forall u :: p.window(u) == state.bucketKey ==> u < state.expiresAt)
    && (forall b :: b > state.bucketKey ==> AdmittedIn(policies, times, p, b) == 0)
    && (forall b :: AdmittedIn(policies, times, p, b) <= p.limit)
  }

  lemma {:induction false} LookupByScope(policies: seq<Policy>, states: seq<State>, i: nat, bucket: int)
    requires WellFormed(policies) && |states| <= |policies| && i < |policies|
    requires forall k :: 0 <= k < |states| ==> states[k].scope == policies[k].scope
    ensures Lookup(states, policies[i].scope, bucket) ==
      if i < |states| && states[i].bucketKey == bucket then Some(states[i]) else None
  {
    if states != [] {
      LookupByScope(policies, states[..|states| - 1], i, bucket);
    }
  }

  /** The entry an admitted attempt at the last instant leaves: one more in the same window, whose expiry it keeps,
      or the first of a new window. */
  lemma NextEntry(policies: seq<Policy>, before: seq<State>, t: Instant, i: nat)
    requires WellFormed(policies) && i < |policies| && (before == [] || |before| == |policies|)
    requires forall k :: 0 <= k < |before| ==> before[k].scope == policies[k].scope
    requires !AnyRejects(before, Inputs(policies, t), t)
    requires before != [] && before[i].bucketKey == policies[i].window(t) ==> t < before[i].expiresAt
    ensures var p, entry := policies[i], NextStates(before, Inputs(policies, t), t)[i];
      && entry.scope == p.scope && entry.bucketKey == p.window(t)
      && if before != [] && before[i].bucketKey == p.window(t)
         then entry.count == before[i].count + 1 <= p.limit && entry.expiresAt == before[i].expiresAt
         else entry.count == 1 && entry.expiresAt == t + WindowMs(p)
  {
    LookupByScope(policies, before, i, policies[i].window(t));
    assert !Rejects(before, Inputs(policies, t)[i], t);
  }

  /** An admission counts in its own window and in no other. */
  lemma AdmissionCounts(policies: seq<Policy>, times: seq<Instant>, p: Policy, bucket: int)
    requires WellFormed(policies) && times != []
    ensures var n := |times| - 1;
      AdmittedIn(policies, times, p, bucket) == AdmittedIn(policies, times[..n], p, bucket) +
        if LastAdmitted(policies, times) && p.window(times[n]) == bucket then 1 else 0
  {
  }

  lemma AdmittedMoves(policies: seq<Policy>, times: seq<Instant>, i: nat)
    requires WellFormed(policies) && times != [] && i < |policies| && NonDecreasing(times)
    requires Tracks(policies, times[..|times| - 1], StatesAfter(policies, times[..|times| - 1]))
    requires LastAdmitted(policies, times)
    ensures TracksOne(policies, times, policies[i], StatesAfter(policies, times)[i])
  {
    var n, p := |times| - 1, policies[i];
    var before, t := StatesAfter(policies, times[..n]), times[n];
    if before != [] {
      forall k | 0 <= k < |policies| ensures before[k].scope == policies[k].scope {
        assert TracksOne(policies, times[..n], policies[k], before[k]);
      }
      assert TracksOne(policies, times[..n], p, before[i]);
      WindowsStep(p, times[n - 1], t);
    }
    NextEntry(policies, before, t, i);
    var entry := NextStates(before, Inputs(policies, t), t)[i];
    assert StatesAfter(policies, times)[i] == entry;
    EntryTracks(policies, times, p, before, i, entry);
  }

  lemma EntryTracks(policies: seq<Policy>, times: seq<Instant>, p: Policy, before: seq<State>, i: nat, entry: State)
    requires WellFormed(policies) && times != [] && i < |policies| && p == policies[i] && LastAdmitted(policies, times)
    requires before == [] || i < |before|
    requires var earlier := times[..|times| - 1];
      before == [] ==> forall b :: AdmittedIn(policies, earlier, p, b) == 0
    requires before != [] ==> TracksOne(policies, times[..|times| - 1], p, before[i])
    requires before != [] ==> before[i].bucketKey <= p.window(times[|times| - 1])
    requires var t := times[|times| - 1];
      && entry.scope == p.scope && entry.bucketKey == p.window(t)
      && if before != [] && before[i].bucketKey == p.window(t)
         then entry.count == before[i].count + 1 <= p.limit && entry.expiresAt == before[i].expiresAt
         else entry.count == 1 && entry.expiresAt == t + WindowMs(p)
    ensures TracksOne(policies, times, p, entry)
  {
    var n := |times| - 1;
    forall b
      ensures AdmittedIn(policies, times, p, b) <= p.limit
      ensures b > entry.bucketKey ==> AdmittedIn(policies, times, p, b) == 0
    {
      AdmissionCounts(policies, times, p, b);
    }
    AdmissionCounts(policies, times, p, entry.bucketKey);
    SameWindow(p, times[n]);
  }

  lemma RefusedMoves(policies: seq<Policy>, times: seq<Instant>, p: Policy, state: State)
    requires WellFormed(policies) && |times| > 1 && Aligned(p) && NonDecreasing(times)
    requires !LastAdmitted(policies, times) && TracksOne(policies, times[..|times| - 1], p, state)
    ensures TracksOne(policies, times, p, state)
  {
    var n := |times| - 1;
    forall b ensures AdmittedIn(policies, times, p, b) == AdmittedIn(policies, times[..n], p, b) {
      AdmissionCounts(policies, times, p, b);
    }
    WindowsStep(p, times[n - 1], times[n]);
  }

  lemma {:induction false} StatesTrack(policies: seq<Policy>, times: seq<Instant>)
    requires WellFormed(policies) && NonDecreasing(times)
    ensures Tracks(policies, times, StatesAfter(policies, times))
  {
    if times != [] {
      var n := |times| - 1;
      var before := StatesAfter(policies, times[..n]);
      StatesTrack(policies, times[..n]);
      if LastAdmitted(policies, times) {
        forall i | 0 <= i < |policies| { AdmittedMoves(policies, times, i); }
      } else {
        assert before != [];
        forall i | 0 <= i < |policies| { RefusedMoves(policies, times, policies[i], before[i]); }
      }
    }
  }

  /** Every aligned window admits at most `limit`. */
  lemma WindowBound(policies: seq<Policy>, times: seq<Instant>, i: nat, bucket: int)
    requires WellFormed(policies) && NonDecreasing(times) && i < |policies|
    ensures AdmittedIn(policies, times, policies[i], bucket) <= policies[i].limit
  {
    StatesTrack(policies, times);
    var states := StatesAfter(policies, times);
    if states != [] { assert TracksOne(policies, times, policies[i], states[i]); }
  }

  lemma {:induction false} TwoWindowsCover(policies: seq<Policy>, times: seq<Instant>, i: nat, from: Instant)
    requires WellFormed(policies) && i < |policies|
    ensures var p := policies[i];
      AdmittedBetween(policies, times, from, from + WindowMs(p)) <=
        AdmittedIn(policies, times, p, p.window(from)) + AdmittedIn(policies, times, p, p.window(from) + 1)
  {
    if times != [] {
      var n := |times| - 1;
      TwoWindowsCover(policies, times[..n], i, from);
      InOneOfTwo(policies[i], from, times[n]);
    }
  }

  lemma InOneOfTwo(p: Policy, from: Instant, t: Instant)
    requires Aligned(p)
    ensures from <= t < from + WindowMs(p) ==> p.window(t) == p.window(from) || p.window(t) == p.window(from) + 1
  {
    if from <= t { WindowsStep(p, from, t); }
  }

  /** Any interval as long as the window, wherever it starts, admits at most twice `limit`. */
  lemma SlidingBound(policies: seq<Policy>, times: seq<Instant>, i: nat, from: Instant)
    requires WellFormed(policies) && NonDecreasing(times) && i < |policies|
    ensures AdmittedBetween(policies, times, from, from + WindowMs(policies[i])) <= 2 * policies[i].limit
  {
    TwoWindowsCover(policies, times, i, from);
    TwoWindowsBound(policies, times, i, policies[i].window(from), policies[i].window(from) + 1);
  }

  lemma TwoWindowsBound(policies: seq<Policy>, times: seq<Instant>, i: nat, a: int, b: int)
    requires WellFormed(policies) && NonDecreasing(times) && i < |policies|
    ensures AdmittedIn(policies, times, policies[i], a) + AdmittedIn(policies, times, policies[i], b) <=
      2 * policies[i].limit
  {
    WindowBound(policies, times, i, a);
    WindowBound(policies, times, i, b);
  }

  /** A refused batch asked again at its `retryAt` or later, with nothing consumed in between, is admitted. */
  lemma RetryIsAdmitted(policies: seq<Policy>, times: seq<Instant>, t: Instant, d: Decision, again: Instant)
    requires WellFormed(policies) && NonDecreasing(times + [t])
    requires var states := StatesAfter(policies, times);
      Decides(states, Inputs(policies, t), t, d) && d.Refused? && again >= d.retryAt
    ensures d.retryAt > t
    ensures !AnyRejects(StatesAfter(policies, times), Inputs(policies, again), again)
  {
    var states := StatesAfter(policies, times);
    assert NonDecreasing(times) by {
      forall i, j | 0 <= i <= j < |times| ensures times[i] <= times[j] {
        assert (times + [t])[i] <= (times + [t])[j];
      }
    }
    StatesTrack(policies, times);
    var r :| 0 <= r < |policies| && Rejects(states, Inputs(policies, t)[r], t) &&
      ExpiryOf(states, Inputs(policies, t)[r]) == d.retryAt;
    assert Active(states, Inputs(policies, t)[r], t);
    forall i | 0 <= i < |policies| ensures !Rejects(states, Inputs(policies, again)[i], again) {
      RetryFindsRoom(policies, times, t, d, again, i);
    }
  }

  lemma RetryFindsRoom(policies: seq<Policy>, times: seq<Instant>, t: Instant, d: Decision, again: Instant, i: nat)
    requires WellFormed(policies) && NonDecreasing(times + [t]) && i < |policies|
    requires var states := StatesAfter(policies, times);
      Tracks(policies, times, states) && Decides(states, Inputs(policies, t), t, d) &&
      d.Refused? && again >= d.retryAt > t
    ensures !Rejects(StatesAfter(policies, times), Inputs(policies, again)[i], again)
  {
    var states, p := StatesAfter(policies, times), policies[i];
    if states != [] {
      assert forall k :: 0 <= k < |policies| ==> TracksOne(policies, times, policies[k], states[k]);
      LookupByScope(policies, states, i, p.window(t));
      LookupByScope(policies, states, i, p.window(again));
      assert (times + [t])[|times| - 1] <= (times + [t])[|times|];
      WindowsStep(p, times[|times| - 1], t);
      WindowsStep(p, t, again);
      assert Rejects(states, Inputs(policies, t)[i], t) ==>
        ExpiryOf(states, Inputs(policies, t)[i]) <= d.retryAt;
    }
  }

  // ------------------------------------------------------- exactly when refused

  /** The window that `t` falls in has admitted as many as it may. */
  predicate IsFull(policies: seq<Policy>, times: seq<Instant>, p: Policy, t: Instant)
    requires WellFormed(policies)
  {
    AdmittedIn(policies, times, p, p.window(t)) >= p.limit
  }

  /** The instant of the first admission in a window. */
  function FirstAdmission(policies: seq<Policy>, times: seq<Instant>, p: Policy, bucket: int): Option<Instant>
    requires WellFormed(policies)
  {
    if times == [] then None
    else
      var n := |times| - 1;
      var before := FirstAdmission(policies, times[..n], p, bucket);
      if before.Some? then before
      else if LastAdmitted(policies, times) && p.window(times[n]) == bucket then Some(times[n])
      else None
  }

  lemma {:induction false} FirstOfSome(policies: seq<Policy>, times: seq<Instant>, p: Policy, bucket: int)
    requires WellFormed(policies)
    ensures FirstAdmission(policies, times, p, bucket).Some? <==> AdmittedIn(policies, times, p, bucket) > 0
  {
    if times != [] { FirstOfSome(policies, times[..|times| - 1], p, bucket); }
  }

  /** An entry expires one window's length after the first admission it counts. */
  predicate Expires(policies: seq<Policy>, times: seq<Instant>, p: Policy, state: State)
    requires WellFormed(policies)
  {
    FirstAdmission(policies, times, p, state.bucketKey) == Some(state.expiresAt - WindowMs(p))
  }

  ghost predicate AllExpire(policies: seq<Policy>, times: seq<Instant>, states: seq<State>)
    requires WellFormed(policies)
  {
    states != [] ==>
      |states| == |policies| && forall i :: 0 <= i < |policies| ==> Expires(policies, times, policies[i], states[i])
  }

  /** In a window that had admissions the first one stays the first; a new window begins with the last attempt. */
  lemma FirstNext(policies: seq<Policy>, times: seq<Instant>, p: Policy)
    requires WellFormed(policies) && times != [] && LastAdmitted(policies, times)
    ensures var n := |times| - 1;
      var b := p.window(times[n]);
      FirstAdmission(policies, times, p, b) ==
        if AdmittedIn(policies, times[..n], p, b) > 0 then FirstAdmission(policies, times[..n], p, b)
        else Some(times[n])
  {
    FirstOfSome(policies, times[..|times| - 1], p, p.window(times[|times| - 1]));
  }

  lemma EntryExpires(policies: seq<Policy>, times: seq<Instant>, p: Policy, before: seq<State>, i: nat, entry: State)
    requires WellFormed(policies) && times != [] && i < |policies| && LastAdmitted(policies, times)
    requires before == [] || i < |before|
    requires var t, earlier := times[|times| - 1], times[..|times| - 1];
      if before == [] then AdmittedIn(policies, earlier, p, p.window(t)) == 0
      else
        && Expires(policies, earlier, p, before[i])
        && (before[i].bucketKey == p.window(t) <==> AdmittedIn(policies, earlier, p, p.window(t)) > 0)
    requires var t := times[|times| - 1];
      && entry.bucketKey == p.window(t)
      && entry.expiresAt == if before != [] && before[i].bucketKey == p.window(t) then before[i].expiresAt
                            else t + WindowMs(p)
    ensures Expires(policies, times, p, entry)
  {
    FirstNext(policies, times, p);
  }

  /** The entry of a policy is for the window of an instant exactly if that window has had admissions. */
  lemma EntryIsNewest(policies: seq<Policy>, times: seq<Instant>, p: Policy, state: State, t: Instant)
    requires WellFormed(policies) && Aligned(p) && p.limit >= 1 && TracksOne(policies, times, p, state)
    requires times[|times| - 1] <= t && state.count >= 1
    ensures state.bucketKey == p.window(t) <==> AdmittedIn(policies, times, p, p.window(t)) > 0
  {
    WindowsStep(p, times[|times| - 1], t);
  }

  lemma ExpiresNext(policies: seq<Policy>, times: seq<Instant>, i: nat)
    requires WellFormed(policies) && times != [] && i < |policies| && NonDecreasing(times)
    requires LastAdmitted(policies, times)
    requires AllExpire(policies, times[..|times| - 1], StatesAfter(policies, times[..|times| - 1]))
    ensures Expires(policies, times, policies[i], StatesAfter(policies, times)[i])
  {
    var n, p, t := |times| - 1, policies[i], times[|times| - 1];
    var before := StatesAfter(policies, times[..n]);
    StatesTrack(policies, times[..n]);
    EntryAfter(policies, times[..n], before, t, i);
    var entry := NextStates(before, Inputs(policies, t), t)[i];
    assert StatesAfter(policies, times)[i] == entry;
    EntryExpires(policies, times, p, before, i, entry);
  }

  lemma EntryAfter(policies: seq<Policy>, earlier: seq<Instant>, before: seq<State>, t: Instant, i: nat)
    requires WellFormed(policies) && i < |policies| && Tracks(policies, earlier, before)
    requires AllExpire(policies, earlier, before) && (earlier != [] ==> earlier[|earlier| - 1] <= t)
    requires !AnyRejects(before, Inputs(policies, t), t)
    ensures before != [] ==> i < |before| && Expires(policies, earlier, policies[i], before[i])
    ensures var admitted := AdmittedIn(policies, earlier, policies[i], policies[i].window(t));
      if before == [] then admitted == 0 else before[i].bucketKey == policies[i].window(t) <==> admitted > 0
    ensures var p, entry := policies[i], NextStates(before, Inputs(policies, t), t)[i];
      && entry.bucketKey == p.window(t)
      && entry.expiresAt == if before != [] && before[i].bucketKey == p.window(t) then before[i].expiresAt
                            else t + WindowMs(p)
  {
    var p := policies[i];
    if before != [] {
      forall k | 0 <= k < |policies| ensures before[k].scope == policies[k].scope {
        assert TracksOne(policies, earlier, policies[k], before[k]);
      }
      assert TracksOne(policies, earlier, p, before[i]);
      assert Expires(policies, earlier, p, before[i]);
      FirstOfSome(policies, earlier, p, before[i].bucketKey);
      EntryIsNewest(policies, earlier, p, before[i], t);
      WindowsStep(p, earlier[|earlier| - 1], t);
    }
    NextEntry(policies, before, t, i);
  }

  lemma {:induction false} StatesExpire(policies: seq<Policy>, times: seq<Instant>)
    requires WellFormed(policies) && NonDecreasing(times)
    ensures AllExpire(policies, times, StatesAfter(policies, times))
  {
    if times != [] {
      var n := |times| - 1;
      StatesExpire(policies, times[..n]);
      if LastAdmitted(policies, times) {
        forall i | 0 <= i < |policies| { ExpiresNext(policies, times, i); }
      } else {
        forall i | 0 <= i < |policies| && StatesAfter(policies, times[..n]) != []
          ensures Expires(policies, times, policies[i], StatesAfter(policies, times)[i])
        {
          assert Expires(policies, times[..n], policies[i], StatesAfter(policies, times[..n])[i]);
        }
      }
    }
  }

  /** One policy refuses at `t` exactly if its window is full, and until one window's length after the window's first
      admission. */
  lemma {:induction false} RefusesExactly(policies: seq<Policy>, times: seq<Instant>, t: Instant, i: nat)
    requires WellFormed(policies) && NonDecreasing(times + [t]) && i < |policies|
    ensures var states, p := StatesAfter(policies, times), policies[i];
      var input, first := Inputs(policies, t)[i], FirstAdmission(policies, times, p, p.window(t));
      && (Rejects(states, input, t) <==> IsFull(policies, times, p, t))
      && (Rejects(states, input, t) ==> first.Some? && ExpiryOf(states, input) == first.value + WindowMs(p))
  {
    var states, p := StatesAfter(policies, times), policies[i];
    assert NonDecreasing(times) by {
      assert forall k :: 0 <= k < |times| ==> (times + [t])[k] == times[k];
    }
    StatesTrack(policies, times);
    StatesExpire(policies, times);
    if states == [] {
      assert Lookup(states, p.scope, p.window(t)).None?;
    } else {
      assert times != [] by { assert TracksOne(policies, times, p, states[i]); }
      assert (times + [t])[|times| - 1] <= (times + [t])[|times|];
      EntryRefuses(policies, times, t, i, states);
    }
  }

  lemma EntryRefuses(policies: seq<Policy>, times: seq<Instant>, t: Instant, i: nat, states: seq<State>)
    requires WellFormed(policies) && i < |policies| && |states| == |policies|
    requires forall k :: 0 <= k < |policies| ==> TracksOne(policies, times, policies[k], states[k])
    requires Expires(policies, times, policies[i], states[i]) && times[|times| - 1] <= t
    ensures var p := policies[i];
      var input, first := Inputs(policies, t)[i], FirstAdmission(policies, times, p, p.window(t));
      && (Rejects(states, input, t) <==> IsFull(policies, times, p, t))
      && (Rejects(states, input, t) ==> first.Some? && ExpiryOf(states, input) == first.value + WindowMs(p))
  {
    var p := policies[i];
    forall k | 0 <= k < |states| ensures states[k].scope == policies[k].scope {
      assert TracksOne(policies, times, policies[k], states[k]);
    }
    LookupByScope(policies, states, i, p.window(t));
    WindowsStep(p, times[|times| - 1], t);
    assert TracksOne(policies, times, p, states[i]);
  }

  /** The window of `t` is full, and its first admission will be one window's length ago at `until`. */
  predicate FullUntil(policies: seq<Policy>, times: seq<Instant>, p: Policy, t: Instant, until: Instant)
    requires WellFormed(policies)
  {
    IsFull(policies, times, p, t) &&
    FirstAdmission(policies, times, p, p.window(t)) == Some(until - WindowMs(p))
  }

  /** One policy refuses exactly if its window is full, and until that window's first admission is a window old. */
  ghost predicate FullSays(policies: seq<Policy>, times: seq<Instant>, t: Instant, i: nat, states: seq<State>,
                           input: Input)
    requires WellFormed(policies) && i < |policies|
  {
    && (Rejects(states, input, t) <==> IsFull(policies, times, policies[i], t))
    && (forall until :: FullUntil(policies, times, policies[i], t, until) <==>
          Rejects(states, input, t) && until == ExpiryOf(states, input))
  }

  lemma {:induction false} FullExactly(policies: seq<Policy>, times: seq<Instant>, t: Instant, i: nat)
    requires WellFormed(policies) && NonDecreasing(times + [t]) && i < |policies|
    ensures FullSays(policies, times, t, i, StatesAfter(policies, times), Inputs(policies, t)[i])
  {
    RefusesExactly(policies, times, t, i);
  }

  /** A batch is refused exactly if some policy's window is full; it names the latest instant at which the first
      admission of a full window is one window's length ago. */
  lemma {:induction false} RefusedExactlyWhenFull(policies: seq<Policy>, times: seq<Instant>, t: Instant, d: Decision)
    requires WellFormed(policies) && NonDecreasing(times + [t])
    requires Decides(StatesAfter(policies, times), Inputs(policies, t), t, d)
    ensures d.Refused? <==> exists i :: 0 <= i < |policies| && IsFull(policies, times, policies[i], t)
    ensures d.Refused? ==> exists i :: 0 <= i < |policies| && FullUntil(policies, times, policies[i], t, d.retryAt)
    ensures d.Refused? ==>
      forall i, until :: 0 <= i < |policies| && FullUntil(policies, times, policies[i], t, until) ==> until <= d.retryAt
  {
    var states, inputs := StatesAfter(policies, times), Inputs(policies, t);
    forall i | 0 <= i < |policies| ensures FullSays(policies, times, t, i, states, inputs[i]) {
      FullExactly(policies, times, t, i);
    }
    FullDecides(policies, times, t, d, states, inputs);
  }

  lemma {:induction false} FullDecides(policies: seq<Policy>, times: seq<Instant>, t: Instant, d: Decision,
                                       states: seq<State>, inputs: seq<Input>)
    requires WellFormed(policies) && |inputs| == |policies| && Decides(states, inputs, t, d)
    requires forall i :: 0 <= i < |policies| ==> FullSays(policies, times, t, i, states, inputs[i])
    ensures d.Refused? <==> exists i :: 0 <= i < |policies| && IsFull(policies, times, policies[i], t)
    ensures d.Refused? ==> exists i :: 0 <= i < |policies| && FullUntil(policies, times, policies[i], t, d.retryAt)
    ensures d.Refused? ==>
      forall i, until :: 0 <= i < |policies| && FullUntil(policies, times, policies[i], t, until) ==> until <= d.retryAt
  {
    if d.Refused? {
      var r :| 0 <= r < |inputs| && Rejects(states, inputs[r], t) && ExpiryOf(states, inputs[r]) == d.retryAt;
      assert FullSays(policies, times, t, r, states, inputs[r]);
      assert FullUntil(policies, times, policies[r], t, d.retryAt);
      forall i, until | 0 <= i < |policies| && FullUntil(policies, times, policies[i], t, until)
        ensures until <= d.retryAt
      {
        assert FullSays(policies, times, t, i, states, inputs[i]);
      }
    } else {
      forall i | 0 <= i < |policies| ensures !IsFull(policies, times, policies[i], t) {
        assert FullSays(policies, times, t, i, states, inputs[i]);
      }
    }
  }

  // ------------------------------------------------------ the counts reported

  lemma {:induction false} CountIsAdmitted(policies: seq<Policy>, times: seq<Instant>, t: Instant, i: nat)
    requires WellFormed(policies) && NonDecreasing(times + [t]) && i < |policies|
    ensures CountNow(StatesAfter(policies, times), Inputs(policies, t)[i], t) ==
      AdmittedIn(policies, times, policies[i], policies[i].window(t))
  {
    var states, p := StatesAfter(policies, times), policies[i];
    assert NonDecreasing(times) by {
      assert forall k :: 0 <= k < |times| ==> (times + [t])[k] == times[k];
    }
    StatesTrack(policies, times);
    if states != [] {
      assert TracksOne(policies, times, p, states[i]);
      assert (times + [t])[|times| - 1] <= (times + [t])[|times|];
      EntryCounts(policies, times, t, i, states);
    }
  }

  lemma {:induction false} EntryCounts(policies: seq<Policy>, times: seq<Instant>, t: Instant, i: nat,
                                       states: seq<State>)
    requires WellFormed(policies) && i < |policies| && |states| == |policies|
    requires forall k :: 0 <= k < |policies| ==> TracksOne(policies, times, policies[k], states[k])
    requires times != [] && times[|times| - 1] <= t
    ensures CountNow(states, Inputs(policies, t)[i], t) ==
      AdmittedIn(policies, times, policies[i], policies[i].window(t))
  {
    var p := policies[i];
    forall k | 0 <= k < |states| ensures states[k].scope == policies[k].scope {
      assert TracksOne(policies, times, policies[k], states[k]);
    }
    LookupByScope(policies, states, i, p.window(t));
    WindowsStep(p, times[|times| - 1], t);
    assert TracksOne(policies, times, p, states[i]);
  }

  predicate DistinctScopes(inputs: seq<Input>) {
    forall i, j :: 0 <= i < j < |inputs| ==> inputs[i].scope != inputs[j].scope
  }

  lemma {:induction false} CountedBefore(states: seq<State>, inputs: seq<Input>, now: Instant, i: nat)
    requires i < |inputs| && DistinctScopes(inputs)
    ensures inputs[i].scope in CountsBefore(states, inputs, now)
    ensures CountsBefore(states, inputs, now)[inputs[i].scope] == CountNow(states, inputs[i], now)
  {
    if i < |inputs| - 1 { CountedBefore(states, inputs[..|inputs| - 1], now, i); }
  }

  lemma {:induction false} CountedAfter(next: seq<State>, i: nat)
    requires i < |next| && forall a, b :: 0 <= a < b < |next| ==> next[a].scope != next[b].scope
    ensures next[i].scope in CountsAfter(next) && CountsAfter(next)[next[i].scope] == next[i].count
  {
    if i < |next| - 1 { CountedAfter(next[..|next| - 1], i); }
  }

  /** The count a decision names for a policy is how many attempts its window has admitted, this one included. */
  lemma {:induction false} CountsSay(policies: seq<Policy>, times: seq<Instant>, t: Instant, d: Decision, i: nat)
    requires WellFormed(policies) && NonDecreasing(times + [t]) && i < |policies|
    requires Decides(StatesAfter(policies, times), Inputs(policies, t), t, d)
    ensures policies[i].scope in d.counts
    ensures d.counts[policies[i].scope] ==
      AdmittedIn(policies, times, policies[i], policies[i].window(t)) + if d.Admitted? then 1 else 0
  {
    var states, inputs := StatesAfter(policies, times), Inputs(policies, t);
    CountIsAdmitted(policies, times, t, i);
    if d.Refused? { CountedBefore(states, inputs, t, i); } else { CountedAfter(NextStates(states, inputs, t), i); }
  }
}
