/** The dead-letter consistency report. It is written twice in the repository, once over joined SQL rows
    (operations-readiness-postgres.ts) and once over maps built in memory (operations-readiness.ts).
    Here the two are proved equal on any snapshot, and right about every reachable one. */
module Audit {
  import opened Basics
  import opened Identifiers
  import opened Store
  import opened Protocol
  import opened Ledger
  import opened Ordering

  datatype Category =
    | Matched | HistoricalMigration | OrphanDlq | DeadWithoutDlq | AlreadyReplayed | MissingEnvelope | IntegrityAnomaly

  const CATEGORIES: set<Category> := set c: Category | true

  datatype Report = Report(counts: map<Category, nat>, samples: map<Category, seq<LetterId>>,
                           deadJobs: nat, deadLetters: nat)

  const SAMPLE_LIMIT: nat := 20

  /** The text order of letter ids that JavaScript's `sort` uses. */
  type IdOrder = (LetterId, LetterId) -> bool

  // --------------------------------------------------------- the SQL version

  /** One row of the join of dead letters with jobs, envelopes and published replays. */
  datatype JoinedRow = JoinedRow(
    id: LetterId,
    envelopeJobId: Option<JobId>,
    payloadDigest: Digest,
    jobStatus: Option<JobStatus>,
    envelopeRecord: Option<JobId>,
    envelopeDigest: Option<Digest>,
    envelopeStatus: Option<EnvelopeStatus>,
    replayed: bool)

  predicate ReplayedLetter(db: Db, id: LetterId) { id.ForJob? && WasReplayed(db.operations, id.jobId) }

  function Join(db: Db, id: LetterId): JoinedRow
    requires id in db.letters
  {
    var e := db.letters[id].envelopeJobId;
    var envelope := if e.Some? && e.value in db.envelopes then Some(db.envelopes[e.value]) else None;
    JoinedRow(id, e, db.letters[id].digest,
              if id.ForJob? && HasJob(db.jobs, id.jobId) then Some(db.jobs[id.jobId.key].status) else None,
              if envelope.Some? then e else None,
              if envelope.Some? then Some(envelope.value.digest) else None,
              if envelope.Some? then Some(envelope.value.status) else None,
              ReplayedLetter(db, id))
  }

  function ClassifyJoined(row: JoinedRow): Category {
    if row.jobStatus == None then OrphanDlq
    else if row.replayed then AlreadyReplayed
    else if row.jobStatus != Some(Dead) then HistoricalMigration
    else if row.envelopeJobId == None || row.envelopeRecord == None then MissingEnvelope
    else if ForJob(row.envelopeRecord.value) != row.id
            || row.envelopeStatus != Some(EnvelopeDead)
            || row.envelopeDigest != Some(row.payloadDigest) then IntegrityAnomaly
    else Matched
  }

  function CategoryOf(db: Db, id: LetterId): Category
    requires id in db.letters
  {
    ClassifyJoined(Join(db, id))
  }

  // ------------------------------------------------------ what is enumerated

  predicate Frozen(db: Db, id: LetterId, freezeAt: Instant) { id in db.letters && db.letters[id].createdAt <= freezeAt }

  /** The order rows come back in: each row of the query once. */
  ghost predicate EnumeratesLetters(db: Db, freezeAt: Instant, order: seq<LetterId>) {
    Distinct(order) && forall id :: id in order <==> Frozen(db, id, freezeAt)
  }

  ghost predicate EnumeratesJobs(db: Db, order: seq<DedupeKey>) {
    Distinct(order) && forall k :: k in order <==> k in db.jobs
  }

  predicate DeadUnfiled(db: Db, freezeAt: Instant, k: DedupeKey) {
    k in db.jobs && db.jobs[k].status == Dead && !Frozen(db, ForJob(db.jobs[k].jobId), freezeAt)
  }

  function FrozenLetters(db: Db, freezeAt: Instant): set<LetterId> {
    set id | id in db.letters && Frozen(db, id, freezeAt)
  }

  // -------------------------------------------------- the report, set by set

  function LettersIn(db: Db, c: Category): set<LetterId> { set id | id in db.letters && CategoryOf(db, id) == c }

  /** The letters of jobs that are dead. */
  function LettersOfDead(db: Db): set<LetterId> {
    set id | id in db.letters && id.ForJob? && IsDead(db.jobs, id.jobId)
  }

  function DeadKeys(db: Db): set<DedupeKey> { set k | k in db.jobs && db.jobs[k].status == Dead }

  function UnfiledLetters(db: Db, freezeAt: Instant): set<LetterId> {
    set k | k in db.jobs && DeadUnfiled(db, freezeAt, k) :: ForJob(db.jobs[k].jobId)
  }

  function InCategory(db: Db, freezeAt: Instant, c: Category): set<LetterId> {
    if c == DeadWithoutDlq then UnfiledLetters(db, freezeAt) else FrozenLetters(db, freezeAt) * LettersIn(db, c)
  }

  const LETTER_CATEGORIES: seq<Category> :=
    [Matched, HistoricalMigration, OrphanDlq, AlreadyReplayed, MissingEnvelope, IntegrityAnomaly]

  function SumOver(counts: map<Category, nat>, cs: seq<Category>): nat {
    if cs == [] then 0
    else
      var c := cs[|cs| - 1];
      SumOver(counts, cs[..|cs| - 1]) + if c in counts then counts[c] else 0
  }

  ghost predicate Samples(db: Db, freezeAt: Instant, order: IdOrder, samples: map<Category, seq<LetterId>>) {
    && samples.Keys == CATEGORIES
    && forall c :: c in CATEGORIES ==> FirstInOrder(order, InCategory(db, freezeAt, c), SAMPLE_LIMIT, samples[c])
  }

  /** What a report must say: the sizes of the sets above, the first twenty of each, how many jobs are dead, and a
      total that the letter categories add up to. */
  ghost predicate Describes(db: Db, freezeAt: Instant, order: IdOrder, r: Report) {
    && r.counts.Keys == CATEGORIES && Samples(db, freezeAt, order, r.samples)
    && (forall c :: c in CATEGORIES ==> r.counts[c] == |InCategory(db, freezeAt, c)|)
    && r.deadJobs == |DeadKeys(db)|
    && r.deadLetters == |FrozenLetters(db, freezeAt)| == SumOver(r.counts, LETTER_CATEGORIES)
  }

  // ------------------------------------------------------------- the methods

  /** The letters of dead jobs without a frozen letter, in the order the jobs come. */
  function PickUnfiled(db: Db, freezeAt: Instant, order: seq<DedupeKey>): seq<LetterId> {
    if order == [] then []
    else
      var n := |order| - 1;
      PickUnfiled(db, freezeAt, order[..n]) +
        if DeadUnfiled(db, freezeAt, order[n]) then [ForJob(db.jobs[order[n]].jobId)] else []
  }

  /** `samples[category].sort().splice(20)` for every category. */
  method CutSamples(order: IdOrder, all: map<Category, seq<LetterId>>) returns (cut: map<Category, seq<LetterId>>)
    requires StrictTotal(order)
    ensures cut.Keys == all.Keys
    ensures forall c :: c in all ==> FirstInOrder(order, ToSet(all[c]), SAMPLE_LIMIT, cut[c])
  {
    cut := map[];
    var left := all.Keys;
    while left != {}
      invariant left <= all.Keys && cut.Keys == all.Keys - left
      invariant forall c :: c in cut ==> FirstInOrder(order, ToSet(all[c]), SAMPLE_LIMIT, cut[c])
      decreases |left|
    {
      var c :| c in left;
      left := left - {c};
      var ids := ToSet(all[c]);
      var first := TakeFirst(order, ids, SAMPLE_LIMIT);
      cut := cut[c := first];
    }
  }

  predicate Tallied(db: Db, order: seq<LetterId>, i: nat, counts: map<Category, nat>, all: map<Category, seq<LetterId>>,
                    c: Category)
    requires i <= |order|
  {
    c in counts && c in all && all[c] == Keep(order[..i], LettersIn(db, c)) && counts[c] == |all[c]|
  }

  lemma TallyNext(db: Db, order: seq<LetterId>, i: nat, counts: map<Category, nat>, all: map<Category, seq<LetterId>>,
                  c: Category)
    requires i < |order| && order[i] in db.letters && Tallied(db, order, i, counts, all, c)
    requires var category := CategoryOf(db, order[i]); category in counts && category in all
    ensures var category := CategoryOf(db, order[i]);
      Tallied(db, order, i + 1, counts[category := counts[category] + 1],
              all[category := all[category] + [order[i]]], c)
  {
    assert order[..i + 1][..i] == order[..i];
  }

  lemma DeadNext(db: Db, order: seq<LetterId>, i: nat)
    requires i < |order| && order[i] in db.letters
    ensures |Keep(order[..i + 1], LettersOfDead(db))| == |Keep(order[..i], LettersOfDead(db))| +
      if order[i] in LettersOfDead(db) then 1 else 0
  {
    assert order[..i + 1][..i] == order[..i];
  }

  /** One joined row: its category, and whether its job is dead. */
  method ClassifyRow(db: Db, id: LetterId) returns (category: Category, dead: bool)
    requires id in db.letters
    ensures category == CategoryOf(db, id) && (dead <==> id in LettersOfDead(db))
  {
    var row := Join(db, id);
    return ClassifyJoined(row), row.jobStatus == Some(Dead);
  }

  ghost predicate AllTallied(db: Db, order: seq<LetterId>, i: nat, counts: map<Category, nat>,
                             all: map<Category, seq<LetterId>>)
    requires i <= |order|
  {
    && counts.Keys == CATEGORIES && all.Keys == CATEGORIES
    && forall c :: c in CATEGORIES ==> Tallied(db, order, i, counts, all, c)
  }

  /** `emptyCounts` and `emptySamples`. */
  method EmptyTally(db: Db, order: seq<LetterId>)
    returns (counts: map<Category, nat>, all: map<Category, seq<LetterId>>)
    ensures AllTallied(db, order, 0, counts, all)
  {
    counts := map c | c in CATEGORIES :: 0;
    all := map c | c in CATEGORIES :: [];
  }

  method TallyOne(db: Db, order: seq<LetterId>, i: nat, counts: map<Category, nat>, all: map<Category, seq<LetterId>>)
    returns (more: map<Category, nat>, longer: map<Category, seq<LetterId>>, dead: bool)
    requires i < |order| && order[i] in db.letters && AllTallied(db, order, i, counts, all)
    ensures AllTallied(db, order, i + 1, more, longer) && (dead <==> order[i] in LettersOfDead(db))
  {
    var category;
    category, dead := ClassifyRow(db, order[i]);
    more := counts[category := counts[category] + 1];
    longer := all[category := all[category] + [order[i]]];
    forall c | c in CATEGORIES ensures Tallied(db, order, i + 1, more, longer, c) {
      TallyNext(db, order, i, counts, all, c);
    }
  }

  /** The loop over the joined rows. */
  method Tally(db: Db, letterOrder: seq<LetterId>)
    returns (counts: map<Category, nat>, all: map<Category, seq<LetterId>>, deadJobs: nat)
    requires forall id :: id in letterOrder ==> id in db.letters
    ensures AllTallied(db, letterOrder, |letterOrder|, counts, all)
    ensures deadJobs == |Keep(letterOrder, LettersOfDead(db))|
  {
    counts, all := EmptyTally(db, letterOrder);
    deadJobs := 0;
    for i := 0 to |letterOrder|
      invariant AllTallied(db, letterOrder, i, counts, all)
      invariant deadJobs == |Keep(letterOrder[..i], LettersOfDead(db))|
    {
      var dead;
      counts, all, dead := TallyOne(db, letterOrder, i, counts, all);
      DeadNext(db, letterOrder, i);
      if dead { deadJobs := deadJobs + 1; }
    }
    assert letterOrder[..|letterOrder|] == letterOrder;
  }

  /** What a category lists before the cut. */
  function Listing(db: Db, letterOrder: seq<LetterId>, unfiled: seq<LetterId>, c: Category): seq<LetterId> {
    if c == DeadWithoutDlq then unfiled else Keep(letterOrder, LettersIn(db, c))
  }

  /** The Postgres report, from the rows of its two queries. */
  method PostgresReport(db: Db, order: IdOrder, letterOrder: seq<LetterId>, unfiledOrder: seq<LetterId>)
    returns (report: Report)
    requires StrictTotal(order) && forall id :: id in letterOrder ==> id in db.letters
    ensures report.counts.Keys == CATEGORIES && report.samples.Keys == CATEGORIES
    ensures forall c :: c in CATEGORIES ==> report.counts[c] == |Listing(db, letterOrder, unfiledOrder, c)|
    ensures forall c :: c in CATEGORIES ==>
      FirstInOrder(order, ToSet(Listing(db, letterOrder, unfiledOrder, c)), SAMPLE_LIMIT, report.samples[c])
    ensures report.deadJobs == |unfiledOrder| + |Keep(letterOrder, LettersOfDead(db))|
    ensures report.deadLetters == |letterOrder|
  {
    var counts, samples, dead := Tally(db, letterOrder);
    assert letterOrder[..|letterOrder|] == letterOrder;
    assert forall c :: c in CATEGORIES ==> Tallied(db, letterOrder, |letterOrder|, counts, samples, c);
    counts := counts[DeadWithoutDlq := |unfiledOrder|];
    samples := samples[DeadWithoutDlq := unfiledOrder];
    var cut := CutSamples(order, samples);
    return Report(counts, cut, |unfiledOrder| + dead, |letterOrder|);
  }

  /** The other implementation's classifier, over looked-up records instead of a joined row. */
  function ClassifyRecords(id: LetterId, letter: LetterRow, envelope: Option<(JobId, EnvelopeRow)>,
                           jobStatus: Option<JobStatus>, replayed: bool): Category {
    if jobStatus.None? then OrphanDlq
    else if replayed then AlreadyReplayed
    else if jobStatus.value != Dead then HistoricalMigration
    else if letter.envelopeJobId.None? || envelope.None? then MissingEnvelope
    else if ForJob(envelope.value.0) != id || envelope.value.1.status != EnvelopeDead
            || envelope.value.1.digest != letter.digest then IntegrityAnomaly
    else Matched
  }

  method IndexJobs(db: Db, jobOrder: seq<DedupeKey>) returns (jobsById: map<JobId, JobStatus>)
    requires RowsKeyed(db)
    requires forall k :: k in jobOrder ==> k in db.jobs
    ensures forall j :: j in jobsById <==> HasJob(db.jobs, j) && j.key in jobOrder
    ensures forall j :: j in jobsById ==> j.key in db.jobs && jobsById[j] == db.jobs[j.key].status
  {
    jobsById := map[];
    for i := 0 to |jobOrder|
      invariant forall j :: j in jobsById <==> HasJob(db.jobs, j) && j.key in jobOrder[..i]
      invariant forall j :: j in jobsById ==> j.key in db.jobs && jobsById[j] == db.jobs[j.key].status
    {
      assert jobOrder[i] in jobOrder;
      jobsById := jobsById[db.jobs[jobOrder[i]].jobId := db.jobs[jobOrder[i]].status];
      assert jobOrder[..i + 1] == jobOrder[..i] + [jobOrder[i]];
    }
    assert jobOrder[..|jobOrder|] == jobOrder;
  }

  /** Looking records up in maps finds what the join finds. */
  method ClassifyOne(db: Db, id: LetterId, jobsById: map<JobId, JobStatus>, replayedIds: set<JobId>)
    returns (category: Category)
    requires id in db.letters
    requires forall j :: j in jobsById <==> HasJob(db.jobs, j)
    requires forall j :: j in jobsById ==> j.key in db.jobs && jobsById[j] == db.jobs[j.key].status
    requires forall j :: j in replayedIds <==> WasReplayed(db.operations, j)
    ensures category == CategoryOf(db, id)
  {
    var letter := db.letters[id];
    var jobStatus := if id.ForJob? && id.jobId in jobsById then Some(jobsById[id.jobId]) else None;
    var e := letter.envelopeJobId;
    var envelope := if e.Some? && e.value in db.envelopes then Some((e.value, db.envelopes[e.value])) else None;
    category := ClassifyRecords(id, letter, envelope, jobStatus, id.ForJob? && id.jobId in replayedIds);
  }

  method Categorize(db: Db, letterOrder: seq<LetterId>, jobsById: map<JobId, JobStatus>)
    returns (samples: map<Category, seq<LetterId>>)
    requires forall id :: id in letterOrder ==> id in db.letters
    requires forall j :: j in jobsById <==> HasJob(db.jobs, j)
    requires forall j :: j in jobsById ==> j.key in db.jobs && jobsById[j] == db.jobs[j.key].status
    ensures samples.Keys == CATEGORIES
    ensures forall c :: c in CATEGORIES && c != DeadWithoutDlq ==> samples[c] == Keep(letterOrder, LettersIn(db, c))
  {
    var replayedIds := set key | key in db.operations && db.operations[key].published :: db.operations[key].jobId;
    samples := map c | c in CATEGORIES :: [];
    for i := 0 to |letterOrder|
      invariant samples.Keys == CATEGORIES
      invariant forall c :: c in CATEGORIES && c != DeadWithoutDlq ==>
        samples[c] == Keep(letterOrder[..i], LettersIn(db, c))
    {
      var id := letterOrder[i];
      assert id in letterOrder;
      var category := ClassifyOne(db, id, jobsById, replayedIds);
      samples := samples[category := samples[category] + [id]];
      assert letterOrder[..i + 1][..i] == letterOrder[..i];
    }
    assert letterOrder[..|letterOrder|] == letterOrder;
  }

  method D1Report(db: Db, freezeAt: Instant, order: IdOrder, letterOrder: seq<LetterId>, jobOrder: seq<DedupeKey>)
    returns (report: Report)
    requires RowsKeyed(db) && StrictTotal(order)
    requires forall id :: id in letterOrder <==> id in FrozenLetters(db, freezeAt)
    requires forall k :: k in jobOrder <==> k in db.jobs
    ensures report.counts.Keys == CATEGORIES && report.samples.Keys == CATEGORIES
    ensures var unfiled := PickUnfiled(db, freezeAt, jobOrder);
      forall c :: c in CATEGORIES ==> report.counts[c] == |Listing(db, letterOrder, unfiled, c)|
    ensures var unfiled := PickUnfiled(db, freezeAt, jobOrder);
      forall c :: c in CATEGORIES ==>
        FirstInOrder(order, ToSet(Listing(db, letterOrder, unfiled, c)), SAMPLE_LIMIT, report.samples[c])
    ensures report.deadJobs == |Keep(jobOrder, DeadKeys(db))| && report.deadLetters == |letterOrder|
  {
    var jobsById := IndexJobs(db, jobOrder);
    var samples := Categorize(db, letterOrder, jobsById);
    var unfiled, deadJobs := CollectUnfiled(db, freezeAt, letterOrder, jobOrder);
    samples := samples[DeadWithoutDlq := unfiled];
    var counts := map c | c in CATEGORIES :: |samples[c]|;
    var cut := CutSamples(order, samples);
    return Report(counts, cut, deadJobs, |letterOrder|);
  }

  method CollectUnfiled(db: Db, freezeAt: Instant, letterOrder: seq<LetterId>, jobOrder: seq<DedupeKey>)
    returns (unfiled: seq<LetterId>, deadJobs: nat)
    requires forall id :: id in letterOrder <==> id in FrozenLetters(db, freezeAt)
    requires forall k :: k in jobOrder <==> k in db.jobs
    ensures unfiled == PickUnfiled(db, freezeAt, jobOrder)
    ensures deadJobs == |Keep(jobOrder, DeadKeys(db))|
  {
    var letterIds := set id | id in letterOrder;
    unfiled, deadJobs := [], 0;
    for i := 0 to |jobOrder|
      invariant unfiled == PickUnfiled(db, freezeAt, jobOrder[..i])
      invariant deadJobs == |Keep(jobOrder[..i], DeadKeys(db))|
    {
      assert jobOrder[i] in jobOrder;
      var row := db.jobs[jobOrder[i]];
      if row.status == Dead {
        deadJobs := deadJobs + 1;
        if ForJob(row.jobId) !in letterIds { unfiled := unfiled + [ForJob(row.jobId)]; }
      }
      assert jobOrder[..i + 1][..i] == jobOrder[..i];
    }
    assert jobOrder[..|jobOrder|] == jobOrder;
  }

  // ------------------------------------------------------ one report, twice

  lemma {:induction false} UnfiledIsSet(db: Db, freezeAt: Instant, order: seq<DedupeKey>)
    requires RowsKeyed(db) && Distinct(order)
    ensures multiset(PickUnfiled(db, freezeAt, order)) ==
      multiset(set k | k in order && DeadUnfiled(db, freezeAt, k) :: ForJob(db.jobs[k].jobId))
  {
    if order != [] {
      var n := |order| - 1;
      var rest, last := order[..n], order[n];
      assert order == rest + [last];
      UnfiledIsSet(db, freezeAt, rest);
      var before := set k | k in rest && DeadUnfiled(db, freezeAt, k) :: ForJob(db.jobs[k].jobId);
      var after := set k | k in order && DeadUnfiled(db, freezeAt, k) :: ForJob(db.jobs[k].jobId);
      if DeadUnfiled(db, freezeAt, last) {
        assert ForJob(db.jobs[last].jobId) !in before;
        assert after == before + {ForJob(db.jobs[last].jobId)};
      } else {
        assert after == before;
      }
    }
  }

  /** Distinct jobs have distinct letters. */
  lemma {:induction false} LettersOfJobs(db: Db, keys: set<DedupeKey>)
    requires RowsKeyed(db) && keys <= db.jobs.Keys
    ensures |set k | k in keys :: ForJob(db.jobs[k].jobId)| == |keys|
    decreases |keys|
  {
    var letters := set k | k in keys :: ForJob(db.jobs[k].jobId);
    if keys != {} {
      var x :| x in keys;
      var rest := keys - {x};
      LettersOfJobs(db, rest);
      assert letters == (set k | k in rest :: ForJob(db.jobs[k].jobId)) + {ForJob(db.jobs[x].jobId)};
    }
  }

  /** Dead jobs are those with a frozen letter and those without: the SQL version's total is right. */
  lemma DeadJobsSplit(db: Db, freezeAt: Instant)
    requires RowsKeyed(db)
    ensures |DeadKeys(db)| == |UnfiledLetters(db, freezeAt)| + |FrozenLetters(db, freezeAt) * LettersOfDead(db)|
  {
    var dead := DeadKeys(db);
    var unfiled := set k | k in db.jobs && DeadUnfiled(db, freezeAt, k);
    var filed := dead - unfiled;
    LettersOfJobs(db, unfiled);
    LettersOfJobs(db, filed);
    assert UnfiledLetters(db, freezeAt) == set k | k in unfiled :: ForJob(db.jobs[k].jobId);
    var letters := FrozenLetters(db, freezeAt) * LettersOfDead(db);
    var images := set k | k in filed :: ForJob(db.jobs[k].jobId);
    forall id | id in letters ensures id in images {
      assert id.jobId.key in filed;
    }
    assert letters == images;
    assert unfiled <= dead && |filed| == |dead| - |unfiled|;
  }

  lemma LettersDescribed(db: Db, freezeAt: Instant, letterOrder: seq<LetterId>, c: Category)
    requires EnumeratesLetters(db, freezeAt, letterOrder) && c != DeadWithoutDlq
    ensures multiset(Keep(letterOrder, LettersIn(db, c))) == multiset(InCategory(db, freezeAt, c))
    ensures |Keep(letterOrder, LettersIn(db, c))| == |InCategory(db, freezeAt, c)|
    ensures ToSet(Keep(letterOrder, LettersIn(db, c))) == InCategory(db, freezeAt, c)
  {
    KeepOfEnumeration(letterOrder, FrozenLetters(db, freezeAt), LettersIn(db, c));
    SameElements(Keep(letterOrder, LettersIn(db, c)), InCategory(db, freezeAt, c));
  }

  lemma SameElements(ids: seq<LetterId>, all: set<LetterId>)
    requires multiset(ids) == multiset(all)
    ensures ToSet(ids) == all
  {
    forall id ensures id in ids <==> id in all { assert id in multiset(ids) <==> id in multiset(all); }
  }

  lemma AllLettersCounted(db: Db, freezeAt: Instant, letterOrder: seq<LetterId>)
    requires EnumeratesLetters(db, freezeAt, letterOrder)
    ensures |letterOrder| == |FrozenLetters(db, freezeAt)|
  {
    EnumerationCounts(letterOrder, FrozenLetters(db, freezeAt));
  }

  lemma {:induction false} KeepAll(order: seq<LetterId>, wanted: set<LetterId>)
    requires forall id :: id in order ==> id in wanted
    ensures Keep(order, wanted) == order
  {
    if order != [] {
      var n := |order| - 1;
      KeepAll(order[..n], wanted);
      assert order == order[..n] + [order[n]];
    }
  }

  /** A sequence that lists each element of a set once. */
  lemma EnumerationCounts(order: seq<LetterId>, all: set<LetterId>)
    requires Distinct(order) && forall id :: id in order <==> id in all
    ensures multiset(order) == multiset(all) && |order| == |all|
  {
    KeepOfEnumeration(order, all, all);
    KeepAll(order, all);
    assert all * all == all;
  }

  lemma PostgresDescribed(db: Db, freezeAt: Instant, letterOrder: seq<LetterId>, unfiledOrder: seq<LetterId>)
    requires RowsKeyed(db) && EnumeratesLetters(db, freezeAt, letterOrder)
    requires Distinct(unfiledOrder) && forall id :: id in unfiledOrder <==> id in UnfiledLetters(db, freezeAt)
    ensures multiset(unfiledOrder) == multiset(UnfiledLetters(db, freezeAt))
    ensures |unfiledOrder| == |UnfiledLetters(db, freezeAt)|
    ensures |unfiledOrder| + |Keep(letterOrder, LettersOfDead(db))| == |DeadKeys(db)|
  {
    EnumerationCounts(unfiledOrder, UnfiledLetters(db, freezeAt));
    KeepOfEnumeration(letterOrder, FrozenLetters(db, freezeAt), LettersOfDead(db));
    DeadJobsSplit(db, freezeAt);
  }

  lemma D1Described(db: Db, freezeAt: Instant, jobOrder: seq<DedupeKey>)
    requires RowsKeyed(db) && EnumeratesJobs(db, jobOrder)
    ensures multiset(PickUnfiled(db, freezeAt, jobOrder)) == multiset(UnfiledLetters(db, freezeAt))
    ensures |PickUnfiled(db, freezeAt, jobOrder)| == |UnfiledLetters(db, freezeAt)|
    ensures |Keep(jobOrder, DeadKeys(db))| == |DeadKeys(db)|
  {
    UnfiledIsSet(db, freezeAt, jobOrder);
    UnfiledSplit(db, freezeAt, jobOrder);
    assert |multiset(PickUnfiled(db, freezeAt, jobOrder))| == |multiset(UnfiledLetters(db, freezeAt))|;
    KeepOfEnumeration(jobOrder, db.jobs.Keys, DeadKeys(db));
    assert db.jobs.Keys * DeadKeys(db) == DeadKeys(db);
  }

  lemma UnfiledSplit(db: Db, freezeAt: Instant, jobOrder: seq<DedupeKey>)
    requires RowsKeyed(db) && EnumeratesJobs(db, jobOrder)
    ensures UnfiledLetters(db, freezeAt) ==
      set k | k in jobOrder && DeadUnfiled(db, freezeAt, k) :: ForJob(db.jobs[k].jobId)
  {
  }

  /** The sets leave no room for two different reports. */
  lemma DescribedOnce(db: Db, freezeAt: Instant, order: IdOrder, a: Report, b: Report)
    requires StrictTotal(order) && Describes(db, freezeAt, order, a) && Describes(db, freezeAt, order, b)
    ensures a == b
  {
    SampledOnce(db, freezeAt, order, a.samples, b.samples);
    assert a.counts == b.counts;
  }

  lemma SampledOnce(db: Db, freezeAt: Instant, order: IdOrder, a: map<Category, seq<LetterId>>,
                    b: map<Category, seq<LetterId>>)
    requires StrictTotal(order) && Samples(db, freezeAt, order, a) && Samples(db, freezeAt, order, b)
    ensures a == b
  {
    forall c | c in CATEGORIES ensures a[c] == b[c] {
      FirstInOrderUnique(order, InCategory(db, freezeAt, c), SAMPLE_LIMIT, a[c], b[c]);
    }
  }

  function Classified(db: Db, freezeAt: Instant): map<LetterId, Category> {
    map id | id in db.letters && Frozen(db, id, freezeAt) :: CategoryOf(db, id)
  }

  function Class(m: map<LetterId, Category>, c: Category): set<LetterId> { set id | id in m && m[id] == c }

  function InClasses(m: map<LetterId, Category>, cs: seq<Category>): set<LetterId> { set id | id in m && m[id] in cs }

  lemma ClassIsCategory(db: Db, freezeAt: Instant, c: Category)
    requires c != DeadWithoutDlq
    ensures Class(Classified(db, freezeAt), c) == InCategory(db, freezeAt, c)
  {
  }

  lemma {:induction false} SumIsUnion(m: map<LetterId, Category>, counts: map<Category, nat>, cs: seq<Category>)
    requires Distinct(cs) && forall c :: c in cs ==> c in counts && counts[c] == |Class(m, c)|
    ensures SumOver(counts, cs) == |InClasses(m, cs)|
  {
    if cs != [] {
      var n := |cs| - 1;
      var rest, last := cs[..n], cs[n];
      assert cs == rest + [last];
      SumIsUnion(m, counts, rest);
      assert InClasses(m, cs) == InClasses(m, rest) + Class(m, last);
      assert InClasses(m, rest) !! Class(m, last);
    }
  }

  lemma AllFiled(db: Db, freezeAt: Instant)
    ensures InClasses(Classified(db, freezeAt), LETTER_CATEGORIES) == FrozenLetters(db, freezeAt)
  {
    var m := Classified(db, freezeAt);
    forall id | id in m ensures m[id] in LETTER_CATEGORIES { InLetterCategories(m[id]); }
  }

  /** The counts of the six letter categories add up to the number of letters. */
  lemma CategoriesSum(db: Db, freezeAt: Instant, counts: map<Category, nat>)
    requires counts.Keys == CATEGORIES && forall c :: c in CATEGORIES ==> counts[c] == |InCategory(db, freezeAt, c)|
    ensures SumOver(counts, LETTER_CATEGORIES) == |FrozenLetters(db, freezeAt)|
  {
    forall c | c in LETTER_CATEGORIES ensures counts[c] == |Class(Classified(db, freezeAt), c)| {
      InLetterCategories(c);
      ClassIsCategory(db, freezeAt, c);
    }
    AllFiled(db, freezeAt);
    SumIsUnion(Classified(db, freezeAt), counts, LETTER_CATEGORIES);
  }

  lemma InLetterCategories(c: Category)
    ensures c in LETTER_CATEGORIES <==> c != DeadWithoutDlq
  {
    assert LETTER_CATEGORIES[0] == Matched && LETTER_CATEGORIES[1] == HistoricalMigration;
    assert LETTER_CATEGORIES[2] == OrphanDlq && LETTER_CATEGORIES[3] == AlreadyReplayed;
    assert LETTER_CATEGORIES[4] == MissingEnvelope && LETTER_CATEGORIES[5] == IntegrityAnomaly;
  }

  /** A report whose lists hold the sets is described by them. */
  lemma ListingsDescribe(db: Db, freezeAt: Instant, order: IdOrder, letterOrder: seq<LetterId>, unfiled: seq<LetterId>,
                         report: Report)
    requires EnumeratesLetters(db, freezeAt, letterOrder)
    requires multiset(unfiled) == multiset(UnfiledLetters(db, freezeAt)) && |unfiled| == |UnfiledLetters(db, freezeAt)|
    requires report.counts.Keys == CATEGORIES && report.samples.Keys == CATEGORIES
    requires forall c :: c in CATEGORIES ==> report.counts[c] == |Listing(db, letterOrder, unfiled, c)|
    requires forall c :: c in CATEGORIES ==>
      FirstInOrder(order, ToSet(Listing(db, letterOrder, unfiled, c)), SAMPLE_LIMIT, report.samples[c])
    requires report.deadJobs == |DeadKeys(db)| && report.deadLetters == |letterOrder|
    ensures Describes(db, freezeAt, order, report)
  {
    forall c | c in CATEGORIES
      ensures |Listing(db, letterOrder, unfiled, c)| == |InCategory(db, freezeAt, c)|
      ensures ToSet(Listing(db, letterOrder, unfiled, c)) == InCategory(db, freezeAt, c)
    {
      if c == DeadWithoutDlq { SameElements(unfiled, UnfiledLetters(db, freezeAt)); }
      else { LettersDescribed(db, freezeAt, letterOrder, c); }
    }
    AllLettersCounted(db, freezeAt, letterOrder);
    CategoriesSum(db, freezeAt, report.counts);
  }

  method PostgresDescribes(db: Db, freezeAt: Instant, order: IdOrder, letters: seq<LetterId>, unfiled: seq<LetterId>)
    returns (report: Report)
    requires RowsKeyed(db) && StrictTotal(order) && EnumeratesLetters(db, freezeAt, letters)
    requires Distinct(unfiled) && forall id :: id in unfiled <==> id in UnfiledLetters(db, freezeAt)
    ensures Describes(db, freezeAt, order, report)
  {
    report := PostgresReport(db, order, letters, unfiled);
    PostgresDescribed(db, freezeAt, letters, unfiled);
    ListingsDescribe(db, freezeAt, order, letters, unfiled, report);
  }

  method D1Describes(db: Db, freezeAt: Instant, order: IdOrder, letters: seq<LetterId>, jobs: seq<DedupeKey>)
    returns (report: Report)
    requires RowsKeyed(db) && StrictTotal(order) && EnumeratesLetters(db, freezeAt, letters) && EnumeratesJobs(db, jobs)
    ensures Describes(db, freezeAt, order, report)
  {
    report := D1Report(db, freezeAt, order, letters, jobs);
    D1Described(db, freezeAt, jobs);
    ListingsDescribe(db, freezeAt, order, letters, PickUnfiled(db, freezeAt, jobs), report);
  }

  /** On one snapshot both implementations return the report the sets describe, so they return the
      same report, whatever order their queries deliver rows in. */
  method ReportsAgree(db: Db, freezeAt: Instant, order: IdOrder, pgLetters: seq<LetterId>, pgUnfiled: seq<LetterId>,
                      d1Letters: seq<LetterId>, d1Jobs: seq<DedupeKey>)
    returns (postgres: Report, d1: Report)
    requires RowsKeyed(db) && StrictTotal(order)
    requires EnumeratesLetters(db, freezeAt, pgLetters) && EnumeratesLetters(db, freezeAt, d1Letters)
    requires EnumeratesJobs(db, d1Jobs)
    requires Distinct(pgUnfiled) && forall id :: id in pgUnfiled <==> id in UnfiledLetters(db, freezeAt)
    ensures Describes(db, freezeAt, order, postgres)
    ensures postgres == d1
  {
    postgres := PostgresDescribes(db, freezeAt, order, pgLetters, pgUnfiled);
    d1 := D1Describes(db, freezeAt, order, d1Letters, d1Jobs);
    DescribedOnce(db, freezeAt, order, postgres, d1);
  }

  // --------------------------------------- the categories on any snapshot

  /** The letter of a job that is dead and was never published again. */
  predicate OfDeadJob(db: Db, id: LetterId) {
    && id.ForJob? && id.jobId.key in db.jobs
    && db.jobs[id.jobId.key].jobId == id.jobId && db.jobs[id.jobId.key].status == Dead
    && forall key :: key in db.operations && db.operations[key].published ==> db.operations[key].jobId != id.jobId
  }

  /** A letter on any snapshot, reachable or not. */
  lemma CategoryExactly(db: Db, id: LetterId)
    requires id in db.letters
    ensures var c, letter := CategoryOf(db, id), db.letters[id];
      && (c == OrphanDlq <==> id.ForMessage? || id.jobId.key !in db.jobs || db.jobs[id.jobId.key].jobId != id.jobId)
      && (c == AlreadyReplayed <==>
            id.ForJob? && id.jobId.key in db.jobs && db.jobs[id.jobId.key].jobId == id.jobId &&
            exists key :: key in db.operations && db.operations[key].jobId == id.jobId && db.operations[key].published)
      && (c == HistoricalMigration <==>
            c != OrphanDlq && c != AlreadyReplayed && db.jobs[id.jobId.key].status != Dead)
      && (OfDeadJob(db, id) <==> c == MissingEnvelope || c == IntegrityAnomaly || c == Matched)
      && (c == MissingEnvelope <==>
            OfDeadJob(db, id) && (letter.envelopeJobId == None || letter.envelopeJobId.value !in db.envelopes))
      && (c == Matched <==>
            && OfDeadJob(db, id) && letter.envelopeJobId == Some(id.jobId) && id.jobId in db.envelopes
            && db.envelopes[id.jobId].status == EnvelopeDead && db.envelopes[id.jobId].digest == letter.digest)
  {
    assert id.ForJob? ==> (WasReplayed(db.operations, id.jobId) <==>
      exists key :: key in db.operations && db.operations[key].jobId == id.jobId && db.operations[key].published);
  }

  // ----------------------------------------- the report on reachable states

  /** In a reachable state a letter's category is decided by three plain questions. */
  lemma CategoryInRun(steps: seq<Step>, id: LetterId)
    requires id in Exec(steps).db.letters
    ensures var db := Exec(steps).db;
      CategoryOf(db, id) ==
        if id.ForMessage? || !HasJob(db.jobs, id.jobId) then OrphanDlq
        else if WasReplayed(db.operations, id.jobId) then AlreadyReplayed
        else if id.jobId in db.envelopes then Matched
        else MissingEnvelope
  {
    var db := Exec(steps).db;
    LedgerInvHolds(steps);
    if id.ForJob? {
      assert LetterSound(db, id.jobId, db.letters[id]);
      if HasJob(db.jobs, id.jobId) {
        assert RowSound(db, id.jobId.key, db.jobs[id.jobId.key]);
        if id.jobId in db.envelopes { assert EnvelopeSound(db.jobs, id.jobId, db.envelopes[id.jobId]); }
      }
    }
  }

  /** The audit agrees with the protocol: no run ever reaches an integrity anomaly or a letter of an
      unreplayed job that is not dead. */
  lemma NoAnomaly(steps: seq<Step>, freezeAt: Instant)
    ensures InCategory(Exec(steps).db, freezeAt, IntegrityAnomaly) == {}
    ensures InCategory(Exec(steps).db, freezeAt, HistoricalMigration) == {}
  {
    forall id | id in Exec(steps).db.letters
      ensures CategoryOf(Exec(steps).db, id) != IntegrityAnomaly
      ensures CategoryOf(Exec(steps).db, id) != HistoricalMigration
    {
      CategoryInRun(steps, id);
    }
  }

  /** A dead job is reported without its letter exactly when the report's clock is behind the letter's. */
  lemma UnfiledMeansLateClock(steps: seq<Step>, freezeAt: Instant, j: JobId)
    ensures ForJob(j) in InCategory(Exec(steps).db, freezeAt, DeadWithoutDlq) <==>
      IsDead(Exec(steps).db.jobs, j) && ForJob(j) in Exec(steps).db.letters &&
      Exec(steps).db.letters[ForJob(j)].createdAt > freezeAt
  {
    var db := Exec(steps).db;
    LedgerInvHolds(steps);
    if ForJob(j) in UnfiledLetters(db, freezeAt) {
      var k :| k in db.jobs && DeadUnfiled(db, freezeAt, k) && ForJob(db.jobs[k].jobId) == ForJob(j);
      assert RowSound(db, k, db.jobs[k]);
    }
    if IsDead(db.jobs, j) {
      assert RowSound(db, j.key, db.jobs[j.key]);
      assert DeadUnfiled(db, freezeAt, j.key) <==> db.letters[ForJob(j)].createdAt > freezeAt;
    }
  }
}
