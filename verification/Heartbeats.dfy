/** The worker heartbeat table and the cache in front of it (apps/api/src/heartbeat-cache.ts, `recordHeartbeat`
    in apps/api/src/control-plane-postgres-data.ts, the worker verdict in operations-readiness-postgres.ts). */
module Heartbeats {
  import opened Basics

  type WorkerId(==, !new)

  type Details(==, !new)

  datatype Beat = Beat(workerId: WorkerId, at: Instant, details: Details)

  type Rows = map<WorkerId, Beat>

  const MAX_FUTURE_SKEW_MS: int := 30_000
  const MAX_HEARTBEAT_AGE_MS: int := 90_000

  predicate IsFresh(beat: Beat, now: Instant) {
    -MAX_FUTURE_SKEW_MS <= now - beat.at <= MAX_HEARTBEAT_AGE_MS
  }

  /** `workerReady` of the health report. */
  predicate WorkerReady(beat: Option<Beat>, now: Instant) {
    beat.Some? && IsFresh(beat.value, now)
  }

  /** A worker is ready exactly if it was last seen at most 90 seconds ago and at most 30 seconds ahead. */
  lemma ReadyExactly(beat: Option<Beat>, now: Instant)
    ensures WorkerReady(beat, now) <==> beat.Some? && beat.value.at - 30_000 <= now <= beat.value.at + 90_000
  {
  }

  /** Text order of worker ids. The database and the cache each have their own; `orders(a, b)` is `a > b`. */
  type TextOrder = (WorkerId, WorkerId) -> bool

  predicate Beats(after: TextOrder, a: Beat, b: Beat) {
    a.at > b.at || (a.at == b.at && after(a.workerId, b.workerId))
  }

  // ------------------------------------------------------------ operations

  /** The worker id is the table's key. */
  predicate Keyed(rows: Rows) { forall k :: k in rows ==> rows[k].workerId == k }

  /** `ON CONFLICT … WHERE last_seen_at <= EXCLUDED.last_seen_at`. */
  function Upsert(rows: Rows, beat: Beat): Rows {
    if beat.workerId in rows && rows[beat.workerId].at > beat.at then rows else rows[beat.workerId := beat]
  }

  /** The rows after the given beats, in the order they came. */
  function Recorded(beats: seq<Beat>): Rows {
    if beats == [] then map[] else Upsert(Recorded(beats[..|beats| - 1]), beats[|beats| - 1])
  }

  /** A worker's row is the latest of its beats, and of equally late ones the last to come. */
  lemma {:induction false} RowIsLatest(beats: seq<Beat>, w: WorkerId)
    ensures w in Recorded(beats) <==> exists i :: 0 <= i < |beats| && beats[i].workerId == w
    ensures w in Recorded(beats) ==>
      exists i :: 0 <= i < |beats| && IsLatestBeat(beats, w, i) && Recorded(beats)[w] == beats[i]
  {
    if beats != [] {
      var n := |beats| - 1;
      var rest, last := beats[..n], beats[n];
      RowIsLatest(rest, w);
      if w in Recorded(rest) && Recorded(beats)[w] == Recorded(rest)[w] && last != Recorded(rest)[w] {
        var i :| 0 <= i < n && IsLatestBeat(rest, w, i) && Recorded(rest)[w] == rest[i];
        assert IsLatestBeat(beats, w, i);
      } else if last.workerId == w {
        if w in Recorded(rest) {
          var i :| 0 <= i < n && IsLatestBeat(rest, w, i) && Recorded(rest)[w] == rest[i];
          assert forall k :: 0 <= k < n && beats[k].workerId == w ==> rest[k].at <= rest[i].at;
        } else {
          assert forall k :: 0 <= k < n ==> rest[k].workerId != w;
        }
        assert IsLatestBeat(beats, w, n);
      }
    }
  }

  predicate IsLatestBeat(beats: seq<Beat>, w: WorkerId, i: nat)
    requires i < |beats|
  {
    && beats[i].workerId == w
    && forall k :: 0 <= k < |beats| && beats[k].workerId == w ==>
         beats[k].at <= beats[i].at && (k > i ==> beats[k].at < beats[i].at)
  }

  /** `ORDER BY last_seen_at DESC, worker_id DESC LIMIT 1`. */
  ghost predicate IsNewest(after: TextOrder, rows: Rows, newest: Option<Beat>) {
    if newest.None? then rows == map[]
    else
      newest.value in rows.Values &&
      forall k :: k in rows ==> rows[k] == newest.value || Beats(after, newest.value, rows[k])
  }

  /** The set-if-newer script. */
  function SetIfNewer(after: TextOrder, cell: Option<Beat>, incoming: Beat): Option<Beat> {
    if cell.Some? && Beats(after, cell.value, incoming) then cell else Some(incoming)
  }

  function SetAll(after: TextOrder, cell: Option<Beat>, writes: seq<Beat>): Option<Beat> {
    if writes == [] then cell
    else SetIfNewer(after, SetAll(after, cell, writes[..|writes| - 1]), writes[|writes| - 1])
  }

  // ------------------------------------------- the cache is a maximum register

  /** No write since the cell was empty beats what it holds, and it holds one of them. */
  ghost predicate IsLatestOf(after: TextOrder, cell: Option<Beat>, writes: seq<Beat>) {
    if cell.None? then writes == []
    else cell.value in writes && forall w :: w in writes ==> !Beats(after, w, cell.value)
  }

  lemma {:induction false} CellIsMaximum(after: TextOrder, writes: seq<Beat>)
    requires StrictTotal(after)
    ensures IsLatestOf(after, SetAll(after, None, writes), writes)
  {
    if writes != [] {
      var n := |writes| - 1;
      CellIsMaximum(after, writes[..n]);
      assert writes == writes[..n] + [writes[n]];
    }
  }

  /** Whatever order the writes arrive in, and however often each arrives, the cell ends up with the same
      time and worker. */
  lemma OrderIrrelevant(after: TextOrder, a: seq<Beat>, b: seq<Beat>)
    requires StrictTotal(after) && forall w :: w in a <==> w in b
    ensures var x, y := SetAll(after, None, a), SetAll(after, None, b);
      (x.None? && y.None?) || (x.Some? && y.Some? && x.value.at == y.value.at && x.value.workerId == y.value.workerId)
  {
    CellIsMaximum(after, a);
    CellIsMaximum(after, b);
    var x, y := SetAll(after, None, a), SetAll(after, None, b);
    if x.Some? { assert x.value in b; }
    if y.Some? { assert y.value in a; }
  }

  // ---------------------------------------------------------- the whole system

  /** The database and the cache; `sent` is every beat anybody has read from the table to put into the cache. Such a
      write may arrive at any later time, any number of times, or never. */
  datatype System = System(rows: Rows, cell: Option<Beat>, ghost sent: set<Beat>, clock: Instant,
                           ghost writes: seq<Beat>)

  datatype Step =
    | Tick(to: Instant)
    | Record(beat: Beat)
    | SendNewest(newest: Beat, now: Instant)
    | Deliver(beat: Beat)
    | Evict

  /** The two text orders. */
  datatype Orders = Orders(table: TextOrder, cache: TextOrder)

  ghost function Apply(o: Orders, s: System, step: Step): System {
    match step
    case Tick(to) => if to >= s.clock then s.(clock := to) else s
    case Record(beat) => if beat.at <= s.clock then s.(rows := Upsert(s.rows, beat)) else s
    case SendNewest(newest, now) =>
      if IsNewest(o.table, s.rows, Some(newest)) && IsFresh(newest, now) then s.(sent := s.sent + {newest}) else s
    case Deliver(beat) =>
      if beat in s.sent then s.(cell := SetIfNewer(o.cache, s.cell, beat), writes := s.writes + [beat]) else s
    case Evict => s.(cell := None, writes := [])
  }

  ghost function Exec(o: Orders, start: Instant, steps: seq<Step>): System {
    if steps == [] then System(map[], None, {}, start, [])
    else Apply(o, Exec(o, start, steps[..|steps| - 1]), steps[|steps| - 1])
  }

  /** Some row is at least as new. */
  ghost predicate Covered(rows: Rows, beat: Beat) { exists k :: k in rows && rows[k].at >= beat.at }

  ghost predicate Inv(o: Orders, s: System) {
    && (forall k :: k in s.rows ==> s.rows[k].at <= s.clock)
    && (forall b :: b in s.sent ==> Covered(s.rows, b))
    && (forall b :: b in s.writes ==> b in s.sent)
    && s.cell == SetAll(o.cache, None, s.writes)
  }

  lemma UpsertCovers(rows: Rows, beat: Beat, b: Beat)
    requires Covered(rows, b)
    ensures Covered(Upsert(rows, beat), b)
  {
    var k :| k in rows && rows[k].at >= b.at;
    assert k in Upsert(rows, beat) && Upsert(rows, beat)[k].at >= rows[k].at;
  }

  lemma StepKeeps(o: Orders, s: System, step: Step)
    requires Inv(o, s)
    ensures Inv(o, Apply(o, s, step))
  {
    match step
    case Record(beat) =>
      forall b | b in s.sent ensures Covered(Apply(o, s, step).rows, b) { UpsertCovers(s.rows, beat, b); }
    case SendNewest(newest, _) =>
      if IsNewest(o.table, s.rows, Some(newest)) {
        var k :| k in s.rows && s.rows[k] == newest;
        assert Covered(s.rows, newest);
      }
    case Deliver(beat) => assert (s.writes + [beat])[..|s.writes|] == s.writes;
    case _ =>
  }

  lemma {:induction false} Always(o: Orders, start: Instant, steps: seq<Step>)
    ensures Inv(o, Exec(o, start, steps))
  {
    if steps != [] {
      Always(o, start, steps[..|steps| - 1]);
      StepKeeps(o, Exec(o, start, steps[..|steps| - 1]), steps[|steps| - 1]);
    }
  }

  /** In every run the cell is the maximum of the writes since the last eviction, and it is never newer than the
      newest row of the table. */
  lemma CacheTrailsTable(o: Orders, start: Instant, steps: seq<Step>, newest: Option<Beat>)
    requires StrictTotal(o.cache) && IsNewest(o.table, Exec(o, start, steps).rows, newest)
    ensures var s := Exec(o, start, steps);
      IsLatestOf(o.cache, s.cell, s.writes) && (s.cell.Some? ==> newest.Some? && s.cell.value.at <= newest.value.at)
  {
    Always(o, start, steps);
    var s := Exec(o, start, steps);
    CellIsMaximum(o.cache, s.writes);
  }

  /** What a health request sees: a fresh cached beat if there is one, else the newest row. */
  function Seen(cell: Option<Beat>, newest: Option<Beat>, now: Instant): Option<Beat> {
    if cell.Some? && IsFresh(cell.value, now) then cell else newest
  }

  /** The verdict through the cache differs from the table's own exactly when the cached beat is fresh while the
      newest row lies too far in the request's future. */
  lemma VerdictsDiffer(o: Orders, start: Instant, steps: seq<Step>, newest: Option<Beat>, now: Instant)
    requires StrictTotal(o.cache) && IsNewest(o.table, Exec(o, start, steps).rows, newest)
    ensures var cell := Exec(o, start, steps).cell;
      WorkerReady(Seen(cell, newest, now), now) != WorkerReady(newest, now) <==>
        cell.Some? && newest.Some? && IsFresh(cell.value, now) && newest.value.at - now > MAX_FUTURE_SKEW_MS
  {
    CacheTrailsTable(o, start, steps, newest);
  }

  /** So with a clock that never goes back, and a request that reads at most 30 seconds after it looked at the
      clock, the cache never changes the verdict, whatever was lost, delayed, repeated or evicted. */
  lemma VerdictsAgree(o: Orders, start: Instant, steps: seq<Step>, newest: Option<Beat>, now: Instant)
    requires StrictTotal(o.cache) && IsNewest(o.table, Exec(o, start, steps).rows, newest)
    requires Exec(o, start, steps).clock <= now + MAX_FUTURE_SKEW_MS
    ensures WorkerReady(Seen(Exec(o, start, steps).cell, newest, now), now) == WorkerReady(newest, now)
  {
    Always(o, start, steps);
    VerdictsDiffer(o, start, steps, newest, now);
  }

  lemma ExecOne(o: Orders, start: Instant, steps: seq<Step>, step: Step)
    ensures Exec(o, start, steps + [step]) == Apply(o, Exec(o, start, steps), step)
  {
    assert (steps + [step])[..|steps|] == steps;
  }

  /** A beat is recorded and cached; a request looks at the clock ten seconds later and reads the table only when
      the next beat, forty seconds on, is there. One clock that never goes back is enough. */
  function SlowRequest(w: WorkerId, d: Details): seq<Step> {
    [] + [Record(Beat(w, 0, d))] + [SendNewest(Beat(w, 0, d), 0)] + [Deliver(Beat(w, 0, d))] + [Tick(50_000)] +
    [Record(Beat(w, 50_000, d))]
  }

  lemma VerdictCanDiffer(o: Orders, w: WorkerId, d: Details)
    ensures var s, now, newest := Exec(o, 0, SlowRequest(w, d)), 10_000, Some(Beat(w, 50_000, d));
      && IsNewest(o.table, s.rows, newest)
      && WorkerReady(Seen(s.cell, newest, now), now) && !WorkerReady(newest, now)
  {
    var first, next := Beat(w, 0, d), Beat(w, 50_000, d);
    var cached := [] + [Record(first)] + [SendNewest(first, 0)] + [Deliver(first)];
    BeatIsCached(o, w, first);
    ExecOne(o, 0, cached, Tick(50_000));
    ExecOne(o, 0, cached + [Tick(50_000)], Record(next));
    assert map[w := first][w := next] == map[w := next];
    OnlyBeatIsNewest(o, w, next);
  }

  /** The only row of a table is its newest. */
  lemma OnlyBeatIsNewest(o: Orders, w: WorkerId, beat: Beat)
    ensures IsNewest(o.table, map[w := beat], Some(beat))
  {
    assert map[w := beat][w] == beat;
  }

  lemma BeatIsCached(o: Orders, w: WorkerId, first: Beat)
    requires first.workerId == w && first.at == 0
    ensures Exec(o, 0, [] + [Record(first)] + [SendNewest(first, 0)] + [Deliver(first)]) ==
      System(map[w := first], Some(first), {first}, 0, [first])
  {
    var empty := System(map[], None, {}, 0, []);
    ExecOne(o, 0, [], Record(first));
    OnlyBeatIsNewest(o, w, first);
    ExecOne(o, 0, [] + [Record(first)], SendNewest(first, 0));
    ExecOne(o, 0, [] + [Record(first)] + [SendNewest(first, 0)], Deliver(first));
    assert empty.sent + {first} == {first};
  }

  // --------------------------------------------------------------- the methods

  class Service {
    const o: Orders
    /** The n-th call of the cache fails or times out. */
    const lost: nat -> bool
    var rows: Rows
    var cell: Option<Beat>
    var calls: nat

    ghost predicate Valid()
      reads this
    {
      StrictTotal(o.table) && StrictTotal(o.cache) && Keyed(rows) && (cell.Some? ==> Covered(rows, cell.value))
    }

    method SelectNewest() returns (newest: Option<Beat>)
      requires StrictTotal(o.table) && Keyed(rows)
      ensures IsNewest(o.table, rows, newest)
    {
      newest := None;
      var left := rows.Keys;
      while left != {}
        invariant left <= rows.Keys
        invariant newest.None? ==> left == rows.Keys
        invariant newest.Some? ==> newest.value in rows.Values
        invariant newest.Some? ==>
          forall k :: k in rows && k !in left ==> rows[k] == newest.value || Beats(o.table, newest.value, rows[k])
        decreases |left|
      {
        var k :| k in left;
        left := left - {k};
        if newest.None? || !(rows[k] == newest.value || Beats(o.table, newest.value, rows[k])) {
          ghost var before := newest;
          newest := Some(rows[k]);
          forall j | j in rows && j !in left && j != k
            ensures rows[j] == newest.value || Beats(o.table, newest.value, rows[j])
          {
            if !Beats(o.table, newest.value, rows[j]) { Ordered(rows[k], before.value, rows[j]); }
          }
        }
      }
    }

    /** Of two beats of one table one beats the other unless time and worker are the same. */
    lemma Ordered(a: Beat, b: Beat, c: Beat)
      requires StrictTotal(o.table) && !Beats(o.table, b, a) && (c == b || Beats(o.table, b, c))
      ensures Beats(o.table, a, c) || (a.at == c.at && a.workerId == c.workerId)
    {
    }

    method CacheFresh(beat: Option<Beat>, now: Instant)
      requires Valid() && (beat.Some? ==> Covered(rows, beat.value))
      modifies this`cell, this`calls
      ensures Valid()
      ensures cell == if beat.Some? && IsFresh(beat.value, now) && !lost(old(calls))
                      then SetIfNewer(o.cache, old(cell), beat.value) else old(cell)
    {
      if beat.None? || !IsFresh(beat.value, now) { return; }
      var failed := lost(calls);
      calls := calls + 1;
      if !failed { cell := SetIfNewer(o.cache, cell, beat.value); }
    }

    method RecordHeartbeat(workerId: WorkerId, details: Details, at: Instant, now: Instant)
      requires Valid()
      modifies this
      ensures Valid() && rows == Upsert(old(rows), Beat(workerId, at, details))
      ensures cell == old(cell) ||
        exists b :: IsNewest(o.table, rows, Some(b)) && IsFresh(b, now) && cell == SetIfNewer(o.cache, old(cell), b)
    {
      var incoming := Beat(workerId, at, details);
      if cell.Some? { UpsertCovers(rows, incoming, cell.value); }
      rows := if workerId in rows && rows[workerId].at > at then rows else rows[workerId := incoming];
      var newest := SelectNewest();
      if newest.Some? { var k :| k in rows && rows[k] == newest.value; }
      CacheFresh(newest, now);
    }

    /** What comes back gives the same verdict as the table's newest row would, unless that row is more than 30
        seconds in the future of `now`. */
    method ReadLatest(now: Instant) returns (latest: Option<Beat>)
      requires Valid()
      modifies this`cell, this`calls
      ensures Valid()
      ensures (old(cell).Some? && latest == old(cell) && IsFresh(old(cell).value, now)) ||
              IsNewest(o.table, rows, latest)
      ensures forall newest ::
        IsNewest(o.table, rows, newest) && (newest.Some? ==> newest.value.at - now <= MAX_FUTURE_SKEW_MS) ==>
        WorkerReady(latest, now) == WorkerReady(newest, now)
    {
      var cached := if lost(calls) then None else cell;
      calls := calls + 1;
      if cached.Some? && IsFresh(cached.value, now) { return cached; }
      latest := SelectNewest();
      if latest.Some? { var k :| k in rows && rows[k] == latest.value; }
      CacheFresh(latest, now);
    }
  }
}
