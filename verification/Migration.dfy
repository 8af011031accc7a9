/** Importing a frozen snapshot into the database (`migrate_snapshot`, scripts/migrate_d1_snapshot.py) and
    rebuilding a copy of the snapshot from it (`_replace_business_rows`, scripts/rehearse_neon_d1_rollback.py). */
module Migration {
  import opened Basics
  import opened RowDigest

  type Name(==, !new)

  /** Column names, unique keys and types, as far as they are compared. */
  type Schema(==, !new)

  const EXPECTED_TABLE_COUNT: nat := 23
  const BATCH_SIZE: nat := 500

  /** A stored table. `serial` are the columns that take their values from a sequence. */
  datatype Table = Table(schema: Schema, width: nat, serial: set<nat>, rows: multiset<Row>)

  /** What the manifest says of one table. */
  datatype Entry = Entry(schema: Schema, count: nat, digest: Sum)

  type Manifest = map<Name, Entry>

  datatype Snapshot = Snapshot(order: seq<Name>, schemas: map<Name, Schema>, rows: map<Name, seq<Row>>)

  datatype Mode = Applied | AlreadyMigrated | DryRun

  datatype MigrationError = WrongTables | SchemaDiffers | TargetNotEmpty | Mismatch | CheckFailed

  datatype Outcome = Report(mode: Mode, tables: Manifest) | Failed(error: MigrationError)

  /** What the two databases are parameters of: the row hash, how the target stores a row it is given, and
      which pairs of schemas match, and whether SQLite's integrity and foreign key checks pass. */
  datatype World = World(hash: Hash, stored: Row -> Row, matches: (Schema, Schema) -> bool,
                         sound: map<Name, Table> -> bool)

  /** The names of the tables, each listed once. */
  ghost predicate Lists<T>(names: seq<Name>, tables: map<Name, T>) {
    Distinct(names) && forall n :: n in tables <==> n in names
  }

  ghost predicate WellFormed(source: Snapshot) {
    Lists(source.order, source.rows) && source.schemas.Keys == source.rows.Keys
  }

  function SourceManifest(w: World, source: Snapshot): Manifest
    requires WellFormed(source)
  {
    map n | n in source.rows :: SourceEntry(w, source, n)
  }

  function SourceEntry(w: World, source: Snapshot, n: Name): Entry
    requires n in source.rows && n in source.schemas
  {
    Entry(source.schemas[n], |source.rows[n]|, DigestOf(w.hash, source.rows[n]))
  }

  ghost function TargetManifest(w: World, tables: map<Name, Table>): Manifest {
    map n | n in tables :: TargetEntry(w, tables[n])
  }

  ghost function TargetEntry(w: World, table: Table): Entry {
    Entry(table.schema, |table.rows|, BagDigest(w.hash, table.rows))
  }

  /** `_validate_schema`. */
  predicate SchemasMatch(w: World, source: Manifest, target: Manifest) {
    source.Keys == target.Keys && forall n :: n in source ==> w.matches(source[n].schema, target[n].schema)
  }

  /** `_same_data`. */
  predicate SameData(source: Manifest, target: Manifest)
    requires source.Keys == target.Keys
  {
    forall n :: n in source ==> (source[n].count == target[n].count && source[n].digest == target[n].digest)
  }

  predicate AllEmpty(target: Manifest) { forall n :: n in target ==> target[n].count == 0 }

  function StoredRows(w: World, rows: seq<Row>): (stored: seq<Row>)
    ensures |stored| == |rows|
  {
    seq(|rows|, i requires 0 <= i < |rows| => w.stored(rows[i]))
  }

  lemma StoredUpTo(w: World, rows: seq<Row>, from: nat, batch: seq<Row>)
    requires from + |batch| <= |rows| && batch == rows[from..from + |batch|]
    ensures StoredRows(w, rows)[..from + |batch|] == StoredRows(w, rows)[..from] + StoredRows(w, batch)
  {
    forall i | 0 <= i < |batch| ensures StoredRows(w, rows)[from + i] == StoredRows(w, batch)[i] {
      assert batch[i] == rows[from + i];
    }
  }

  function WithRows(tables: map<Name, Table>, n: Name, more: multiset<Row>): map<Name, Table>
    requires n in tables
  {
    tables[n := tables[n].(rows := tables[n].rows + more)]
  }

  lemma WithRowsTwice(tables: map<Name, Table>, n: Name, a: multiset<Row>, b: multiset<Row>)
    requires n in tables
    ensures WithRows(WithRows(tables, n, a), n, b) == WithRows(tables, n, a + b)
    ensures WithRows(tables, n, multiset{}) == tables
  {
    assert tables[n].rows + a + b == tables[n].rows + (a + b);
    assert tables[n].rows + multiset{} == tables[n].rows;
  }

  /** The tables after every snapshot row has been inserted. */
  function Imported(w: World, source: Snapshot, tables: map<Name, Table>): map<Name, Table>
    requires WellFormed(source) && tables.Keys == source.rows.Keys
  {
    map n | n in tables :: WithRows(tables, n, multiset(StoredRows(w, source.rows[n])))[n]
  }

  /** What an import must answer. */
  ghost function Verdict(w: World, source: Snapshot, tables: map<Name, Table>, apply: bool): Outcome
    requires WellFormed(source)
  {
    if |source.order| != EXPECTED_TABLE_COUNT || tables.Keys != source.rows.Keys then Failed(WrongTables)
    else
      Ruling(w, SourceManifest(w, source), TargetManifest(w, tables), TargetManifest(w, Imported(w, source, tables)),
             apply)
  }

  /** The same, from the manifests of the snapshot, of the target as it is, and of the target after an import. */
  function Ruling(w: World, from: Manifest, to: Manifest, after: Manifest, apply: bool): Outcome
    requires from.Keys == after.Keys
  {
    if !SchemasMatch(w, from, to) then Failed(SchemaDiffers)
    else if SameData(from, to) then Report(AlreadyMigrated, from)
    else if !AllEmpty(to) then Failed(TargetNotEmpty)
    else if !apply then Report(DryRun, from)
    else if SameData(from, after) then Report(Applied, from)
    else Failed(Mismatch)
  }

  lemma RuledMismatch(w: World, from: Manifest, to: Manifest, after: Manifest)
    requires from.Keys == after.Keys && Ruling(w, from, to, after, true) == Failed(Mismatch)
    ensures AllEmpty(to) && !SameData(from, after)
  {
  }

  lemma RuledApplied(w: World, from: Manifest, to: Manifest, after: Manifest)
    requires from.Keys == after.Keys && Ruling(w, from, to, after, true) == Report(Applied, from)
    ensures SchemasMatch(w, from, to) && SameData(from, after)
  {
  }

  lemma RuledAgain(w: World, from: Manifest, after: Manifest, later: Manifest, again: bool)
    requires from.Keys == after.Keys == later.Keys && SchemasMatch(w, from, after) && SameData(from, after)
    ensures Ruling(w, from, after, later, again) == Report(AlreadyMigrated, from)
  {
  }

  ghost predicate Lossless(w: World, source: Snapshot)
    requires WellFormed(source)
  {
    forall n, i :: n in source.rows && 0 <= i < |source.rows[n]| ==>
      w.hash(w.stored(source.rows[n][i])) == w.hash(source.rows[n][i])
  }

  // ------------------------------------------------------- what the check guards

  lemma {:induction false} StoredDigest(w: World, rows: seq<Row>)
    requires forall i :: 0 <= i < |rows| ==> w.hash(w.stored(rows[i])) == w.hash(rows[i])
    ensures DigestOf(w.hash, StoredRows(w, rows)) == DigestOf(w.hash, rows)
  {
    if rows != [] {
      var n := |rows| - 1;
      assert StoredRows(w, rows)[..n] == StoredRows(w, rows[..n]);
      StoredDigest(w, rows[..n]);
    }
  }

  /** Of an empty table, the import leaves exactly the snapshot's rows as stored. */
  lemma ImportedEntry(w: World, source: Snapshot, tables: map<Name, Table>, n: Name)
    requires WellFormed(source) && tables.Keys == source.rows.Keys && n in tables && |tables[n].rows| == 0
    ensures var t := Imported(w, source, tables)[n];
      t.rows == multiset(StoredRows(w, source.rows[n])) && |t.rows| == |source.rows[n]| &&
      BagDigest(w.hash, t.rows) == DigestOf(w.hash, StoredRows(w, source.rows[n]))
  {
    var rows := StoredRows(w, source.rows[n]);
    assert tables[n].rows == multiset{};
    assert |multiset(rows)| == |rows|;
    AnyOrder(w.hash, multiset(rows), rows);
  }

  lemma ImportedAgrees(w: World, source: Snapshot, tables: map<Name, Table>)
    requires WellFormed(source) && Lossless(w, source) && tables.Keys == source.rows.Keys
    requires AllEmpty(TargetManifest(w, tables))
    ensures SameData(SourceManifest(w, source), TargetManifest(w, Imported(w, source, tables)))
  {
    forall n | n in tables
      ensures var e := TargetManifest(w, Imported(w, source, tables))[n];
        e.count == |source.rows[n]| && e.digest == DigestOf(w.hash, source.rows[n])
    {
      assert TargetManifest(w, tables)[n].count == 0;
      ImportedEntry(w, source, tables, n);
      StoredDigest(w, source.rows[n]);
    }
  }

  /** The target can take the snapshot's tables. */
  ghost predicate Suitable(w: World, source: Snapshot, tables: map<Name, Table>)
    requires WellFormed(source)
  {
    |source.order| == EXPECTED_TABLE_COUNT && tables.Keys == source.rows.Keys &&
    SchemasMatch(w, SourceManifest(w, source), TargetManifest(w, tables))
  }

  /** If storing a row does not change its hash, the final check cannot fail. */
  lemma NoMismatch(w: World, source: Snapshot, tables: map<Name, Table>)
    requires WellFormed(source) && Lossless(w, source)
    ensures Verdict(w, source, tables, true) != Failed(Mismatch)
  {
    if Verdict(w, source, tables, true) == Failed(Mismatch) {
      MismatchMeans(w, source, tables);
      ImportedAgrees(w, source, tables);
      assert false;
    }
  }

  lemma MismatchMeans(w: World, source: Snapshot, tables: map<Name, Table>)
    requires WellFormed(source) && Verdict(w, source, tables, true) == Failed(Mismatch)
    ensures tables.Keys == source.rows.Keys && AllEmpty(TargetManifest(w, tables))
    ensures !SameData(SourceManifest(w, source), TargetManifest(w, Imported(w, source, tables)))
  {
    RuledMismatch(w, SourceManifest(w, source), TargetManifest(w, tables),
                  TargetManifest(w, Imported(w, source, tables)));
  }

  /** Two manifests with the same data have the same digest of every table. */
  lemma DifferenceShows(w: World, source: Snapshot, tables: map<Name, Table>, n: Name)
    requires WellFormed(source) && tables.Keys == source.rows.Keys && n in tables
    requires TellsApart(w.hash) && OffByOne(source.rows[n], tables[n].rows)
    ensures !SameData(SourceManifest(w, source), TargetManifest(w, tables))
  {
    var common, x, y :| OffBy(source.rows[n], tables[n].rows, common, x, y);
    OneRowTells(w.hash, source.rows[n], tables[n].rows, common, x, y);
    assert SourceManifest(w, source)[n].digest != TargetManifest(w, tables)[n].digest;
  }

  ghost predicate SomeTableOff(source: Snapshot, tables: map<Name, Table>) {
    exists n :: n in tables && n in source.rows && OffByOne(source.rows[n], tables[n].rows)
  }

  lemma DifferencesShow(w: World, source: Snapshot, tables: map<Name, Table>)
    requires WellFormed(source) && tables.Keys == source.rows.Keys && TellsApart(w.hash)
    ensures SomeTableOff(source, tables) ==> !SameData(SourceManifest(w, source), TargetManifest(w, tables))
  {
    if n :| n in tables && n in source.rows && OffByOne(source.rows[n], tables[n].rows) {
      DifferenceShows(w, source, tables, n);
    }
  }

  lemma ManifestsSay(w: World, source: Snapshot, tables: map<Name, Table>)
    requires WellFormed(source) && tables.Keys == source.rows.Keys
    ensures var from, to := SourceManifest(w, source), TargetManifest(w, tables);
      && from.Keys == to.Keys == tables.Keys
      && forall n :: n in tables ==>
        && from[n].schema == source.schemas[n] && to[n].schema == tables[n].schema
        && from[n].count == |source.rows[n]| && to[n].count == |tables[n].rows|
  {
  }

  /** The manifests an import decides by, and what they say of the tables. */
  lemma ManifestsOf(w: World, source: Snapshot, tables: map<Name, Table>, apply: bool)
    returns (from: Manifest, to: Manifest, after: Manifest)
    requires WellFormed(source) && tables.Keys == source.rows.Keys && |source.order| == 23
    ensures from.Keys == to.Keys == after.Keys == tables.Keys
    ensures Verdict(w, source, tables, apply) == Ruling(w, from, to, after, apply)
    ensures forall n :: n in tables ==>
      && from[n].schema == source.schemas[n] && to[n].schema == tables[n].schema
      && from[n].count == |source.rows[n]| && to[n].count == |tables[n].rows|
    ensures TellsApart(w.hash) && SameData(from, to) ==> !SomeTableOff(source, tables)
    ensures TellsApart(w.hash) && SameData(from, after) ==> !SomeTableOff(source, Imported(w, source, tables))
  {
    var there := Imported(w, source, tables);
    from, to, after := SourceManifest(w, source), TargetManifest(w, tables), TargetManifest(w, there);
    ManifestsSay(w, source, tables);
    if TellsApart(w.hash) {
      DifferencesShow(w, source, tables);
      DifferencesShow(w, source, there);
    }
  }

  lemma WrongTablesFirst(w: World, source: Snapshot, tables: map<Name, Table>, apply: bool)
    requires WellFormed(source) && (tables.Keys != source.rows.Keys || |source.order| != 23)
    ensures Verdict(w, source, tables, apply) == Failed(WrongTables)
  {
  }

  /** With hashes that tell rows apart, a target that differs from the snapshot in one row of one table is not taken to
      be migrated, and an import that leaves such a difference is not called applied. */
  lemma DifferenceIsNoticed(w: World, source: Snapshot, tables: map<Name, Table>, apply: bool, verdict: Outcome)
    requires WellFormed(source) && TellsApart(w.hash) && verdict == Verdict(w, source, tables, apply)
    ensures verdict.Report? ==> tables.Keys == source.rows.Keys
    ensures verdict.Report? && verdict.mode == AlreadyMigrated ==> !SomeTableOff(source, tables)
    ensures verdict.Report? && verdict.mode == Applied ==> !SomeTableOff(source, Imported(w, source, tables))
  {
    if tables.Keys == source.rows.Keys && |source.order| == 23 {
      var from, to, after := ManifestsOf(w, source, tables, apply);
      RulingSays(w, from, to, after, apply);
    } else {
      WrongTablesFirst(w, source, tables, apply);
    }
  }

  /** What each answer says about the target as it was. */
  lemma VerdictSays(w: World, source: Snapshot, tables: map<Name, Table>, apply: bool, verdict: Outcome)
    requires WellFormed(source) && verdict == Verdict(w, source, tables, apply)
    ensures verdict.Report? ==>
      |source.order| == 23 && tables.Keys == source.rows.Keys &&
      forall n :: n in tables ==> w.matches(source.schemas[n], tables[n].schema)
    ensures verdict.Report? && verdict.mode == AlreadyMigrated ==>
      forall n :: n in tables ==> |tables[n].rows| == |source.rows[n]|
    ensures verdict.Report? && verdict.mode == Applied ==> apply && forall n :: n in tables ==> |tables[n].rows| == 0
    ensures verdict.Report? && verdict.mode == DryRun ==> !apply && forall n :: n in tables ==> |tables[n].rows| == 0
    ensures verdict == Failed(TargetNotEmpty) ==> exists n :: n in tables && |tables[n].rows| > 0
  {
    if tables.Keys == source.rows.Keys && |source.order| == 23 {
      var from, to, after := ManifestsOf(w, source, tables, apply);
      RulingSays(w, from, to, after, apply);
    } else {
      WrongTablesFirst(w, source, tables, apply);
    }
  }

  lemma RulingSays(w: World, from: Manifest, to: Manifest, after: Manifest, apply: bool)
    requires from.Keys == after.Keys == to.Keys
    ensures var verdict := Ruling(w, from, to, after, apply);
      && (verdict.Report? ==> forall n :: n in to ==> w.matches(from[n].schema, to[n].schema))
      && (verdict.Report? && verdict.mode == AlreadyMigrated ==>
            SameData(from, to) && forall n :: n in to ==> from[n].count == to[n].count)
      && (verdict.Report? && verdict.mode == Applied ==> SameData(from, after))
      && (verdict.Report? && verdict.mode == Applied ==> apply && forall n :: n in to ==> to[n].count == 0)
      && (verdict.Report? && verdict.mode == DryRun ==> !apply && forall n :: n in to ==> to[n].count == 0)
      && (verdict == Failed(TargetNotEmpty) ==> exists n :: n in to && to[n].count > 0)
  {
  }

  /** A snapshot that holds some row goes into any suitable empty target. */
  lemma ImportGoesThrough(w: World, source: Snapshot, tables: map<Name, Table>, some: Name)
    requires WellFormed(source) && Lossless(w, source) && Suitable(w, source, tables)
    requires forall n :: n in tables ==> tables[n].rows == multiset{}
    requires some in source.rows && source.rows[some] != []
    ensures Verdict(w, source, tables, true) == Report(Applied, SourceManifest(w, source))
  {
    NotThereYet(w, source, tables, some);
    ImportedAgrees(w, source, tables);
    VerdictIsApplied(w, source, tables);
  }

  lemma NotThereYet(w: World, source: Snapshot, tables: map<Name, Table>, some: Name)
    requires WellFormed(source) && tables.Keys == source.rows.Keys
    requires forall n :: n in tables ==> tables[n].rows == multiset{}
    requires some in source.rows && source.rows[some] != []
    ensures AllEmpty(TargetManifest(w, tables)) && !SameData(SourceManifest(w, source), TargetManifest(w, tables))
  {
    assert SourceManifest(w, source)[some].count != TargetManifest(w, tables)[some].count;
  }

  lemma VerdictIsApplied(w: World, source: Snapshot, tables: map<Name, Table>)
    requires WellFormed(source) && Suitable(w, source, tables) && AllEmpty(TargetManifest(w, tables))
    requires !SameData(SourceManifest(w, source), TargetManifest(w, tables))
    requires SameData(SourceManifest(w, source), TargetManifest(w, Imported(w, source, tables)))
    ensures Verdict(w, source, tables, true) == Report(Applied, SourceManifest(w, source))
  {
  }

  lemma ImportedSchema(w: World, source: Snapshot, tables: map<Name, Table>, n: Name)
    requires WellFormed(source) && tables.Keys == source.rows.Keys && n in tables
    ensures Imported(w, source, tables)[n].schema == tables[n].schema
  {
  }

  lemma SameSchemasMatch(w: World, source: Manifest, before: Manifest, after: Manifest)
    requires SchemasMatch(w, source, before) && before.Keys == after.Keys
    requires forall n :: n in before ==> after[n].schema == before[n].schema
    ensures SchemasMatch(w, source, after)
  {
  }

  lemma ImportedSuitable(w: World, source: Snapshot, tables: map<Name, Table>)
    requires WellFormed(source) && Suitable(w, source, tables)
    ensures Suitable(w, source, Imported(w, source, tables))
  {
    var after := Imported(w, source, tables);
    assert after.Keys == tables.Keys;
    forall n | n in tables ensures TargetManifest(w, after)[n].schema == TargetManifest(w, tables)[n].schema {
      ImportedSchema(w, source, tables, n);
    }
    SameSchemasMatch(w, SourceManifest(w, source), TargetManifest(w, tables), TargetManifest(w, after));
  }

  /** An import that went through is recognised: asking again, with or without `apply`, finds the data there. */
  lemma AgainIsAlready(w: World, source: Snapshot, tables: map<Name, Table>, again: bool)
    requires WellFormed(source) && Verdict(w, source, tables, true) == Report(Applied, SourceManifest(w, source))
    ensures Verdict(w, source, Imported(w, source, tables), again) == Report(AlreadyMigrated, SourceManifest(w, source))
  {
    var after := Imported(w, source, tables);
    var from, to, found := SourceManifest(w, source), TargetManifest(w, tables), TargetManifest(w, after);
    RuledApplied(w, from, to, found);
    ImportedSuitable(w, source, tables);
    RuledAgain(w, from, found, TargetManifest(w, Imported(w, source, after)), again);
  }

  // --------------------------------------------------------------- the target

  /** The import after the tables in `done`. */
  ghost predicate Midway(w: World, source: Snapshot, before: map<Name, Table>, tables: map<Name, Table>,
                         done: seq<Name>)
  {
    && WellFormed(source) && before.Keys == tables.Keys == source.rows.Keys
    && forall n :: n in tables ==>
        tables[n] == if n in done then WithRows(before, n, multiset(StoredRows(w, source.rows[n])))[n] else before[n]
  }

  lemma ImportedOne(w: World, source: Snapshot, before: map<Name, Table>, tables: map<Name, Table>, i: nat)
    requires WellFormed(source) && i < |source.order| && Midway(w, source, before, tables, source.order[..i])
    ensures source.order[i] in tables && source.order[i] in source.rows
    ensures Midway(w, source, before,
                   WithRows(tables, source.order[i], multiset(StoredRows(w, source.rows[source.order[i]]))),
                   source.order[..i + 1])
  {
    var n := source.order[i];
    assert n in source.order && n !in source.order[..i];
    assert source.order[..i + 1] == source.order[..i] + [n];
  }

  lemma MidwayDone(w: World, source: Snapshot, before: map<Name, Table>, tables: map<Name, Table>)
    requires Midway(w, source, before, tables, source.order)
    ensures tables == Imported(w, source, before)
  {
  }

  predicate HasId(row: Row, column: nat) { column < |row| && row[column].Integer? }

  function IdOf(row: Row, column: nat): int
    requires HasId(row, column)
  {
    row[column].n
  }

  /** Where a sequence stands after `reset_sequences`: just above the largest stored value, if there is one. */
  ghost predicate Restarted(rows: multiset<Row>, column: nat, before: int, after: int) {
    if exists row :: row in rows && HasId(row, column) then
      && (exists row :: row in rows && HasId(row, column) && IdOf(row, column) + 1 == after)
      && (forall row :: row in rows && HasId(row, column) ==> IdOf(row, column) < after)
    else after == before
  }

  ghost predicate SequenceReset(table: Table, n: Name, column: nat, before: map<(Name, nat), int>,
                                after: map<(Name, nat), int>) {
    before.Keys == after.Keys &&
    ((n, column) in before ==>
      if column in table.serial then Restarted(table.rows, column, before[(n, column)], after[(n, column)])
      else after[(n, column)] == before[(n, column)])
  }

  /** All sequences of all tables. */
  ghost predicate SequencesReset(tables: map<Name, Table>, before: map<(Name, nat), int>,
                                 after: map<(Name, nat), int>)
  {
    forall n, column :: n in tables ==> SequenceReset(tables[n], n, column, before, after)
  }

  /** `None` when no row holds a number in that column. */
  method LargestId(rows: seq<Row>, column: nat) returns (largest: Option<int>)
    ensures largest.None? <==> forall row :: row in rows ==> !HasId(row, column)
    ensures largest.Some? ==> exists row :: row in rows && HasId(row, column) && IdOf(row, column) == largest.value
    ensures largest.Some? ==> forall row :: row in rows && HasId(row, column) ==> IdOf(row, column) <= largest.value
  {
    largest := None;
    for i := 0 to |rows|
      invariant largest.None? <==> forall k :: 0 <= k < i ==> !HasId(rows[k], column)
      invariant largest.Some? ==>
        exists k :: 0 <= k < i && HasId(rows[k], column) && IdOf(rows[k], column) == largest.value
      invariant forall k :: 0 <= k < i && HasId(rows[k], column) ==>
        (largest.Some? && IdOf(rows[k], column) <= largest.value)
    {
      if HasId(rows[i], column) && (largest.None? || IdOf(rows[i], column) > largest.value) {
        largest := Some(IdOf(rows[i], column));
      }
    }
  }

  /** The rows of a table, in whatever order the database returns them. */
  method SelectRows(table: Table) returns (rows: seq<Row>)
    ensures multiset(rows) == table.rows
  {
    var left := table.rows;
    rows := [];
    while left != multiset{}
      invariant multiset(rows) + left == table.rows
      decreases |left|
    {
      var row :| row in left;
      left := left - multiset{row};
      rows := rows + [row];
    }
  }

  method ReadEntry(w: World, table: Table) returns (entry: Entry)
    ensures entry == TargetEntry(w, table)
  {
    var rows := SelectRows(table);
    var digest := DigestRows(w.hash, rows);
    AnyOrder(w.hash, table.rows, rows);
    return Entry(table.schema, |table.rows|, digest);
  }

  /** `_target_manifest`, and `_source_manifest` of the rollback copy. */
  method ReadManifest(w: World, tables: map<Name, Table>, names: seq<Name>) returns (manifest: Manifest)
    requires Lists(names, tables)
    ensures manifest == TargetManifest(w, tables)
  {
    ghost var full := TargetManifest(w, tables);
    manifest := map[];
    for i := 0 to |names|
      invariant SoFar(full, names, i, manifest)
    {
      SoFarNext(full, names, i, manifest);
      var entry := ReadEntry(w, tables[names[i]]);
      assert entry == full[names[i]];
      manifest := manifest[names[i] := entry];
    }
    SoFarComplete(full, names, manifest);
  }

  /** The first `i` tables' part of a manifest. */
  ghost predicate SoFar(full: Manifest, names: seq<Name>, i: nat, part: Manifest) {
    && i <= |names| && (forall k :: 0 <= k < i ==> names[k] in part)
    && forall n :: n in part ==> n in full && part[n] == full[n]
  }

  lemma SoFarNext(full: Manifest, names: seq<Name>, i: nat, part: Manifest)
    requires Lists(names, full) && i < |names| && SoFar(full, names, i, part)
    ensures names[i] in names && names[i] in full && SoFar(full, names, i + 1, part[names[i] := full[names[i]]])
  {
    assert names[i] in names;
  }

  lemma SoFarComplete(full: Manifest, names: seq<Name>, part: Manifest)
    requires Lists(names, full) && SoFar(full, names, |names|, part)
    ensures part == full
  {
  }

  /** `executemany` of an insert. */
  method InsertRows(w: World, tables: map<Name, Table>, n: Name, batch: seq<Row>) returns (after: map<Name, Table>)
    requires n in tables
    ensures after == WithRows(tables, n, multiset(StoredRows(w, batch)))
  {
    after := tables;
    WithRowsTwice(tables, n, multiset{}, multiset{});
    for i := 0 to |batch|
      invariant after == WithRows(tables, n, multiset(StoredRows(w, batch)[..i]))
    {
      var row := w.stored(batch[i]);
      WithRowsTwice(tables, n, multiset(StoredRows(w, batch)[..i]), multiset{row});
      after := after[n := after[n].(rows := after[n].rows + multiset{row})];
      StoredUpTo(w, batch, i, batch[i..i + 1]);
      assert StoredRows(w, batch[i..i + 1]) == [row];
    }
    assert StoredRows(w, batch)[..|batch|] == StoredRows(w, batch);
  }

  class Target {
    const w: World
    var tables: map<Name, Table>
    var next: map<(Name, nat), int>

    /** `cursor.fetchmany(500)` until it returns nothing. */
    method ImportTable(n: Name, rows: seq<Row>)
      requires n in tables
      modifies this`tables
      ensures tables == WithRows(old(tables), n, multiset(StoredRows(w, rows)))
    {
      var position := 0;
      WithRowsTwice(tables, n, multiset{}, multiset{});
      while position < |rows|
        invariant 0 <= position <= |rows|
        invariant tables == WithRows(old(tables), n, multiset(StoredRows(w, rows)[..position]))
      {
        var end := Min(position + BATCH_SIZE, |rows|);
        var batch := rows[position..end];
        WithRowsTwice(old(tables), n, multiset(StoredRows(w, rows)[..position]), multiset(StoredRows(w, batch)));
        StoredUpTo(w, rows, position, batch);
        tables := InsertRows(w, tables, n, batch);
        position := end;
      }
      assert StoredRows(w, rows)[..|rows|] == StoredRows(w, rows);
    }

    method ImportAll(source: Snapshot)
      requires WellFormed(source) && tables.Keys == source.rows.Keys
      modifies this`tables
      ensures tables == Imported(w, source, old(tables))
    {
      for i := 0 to |source.order|
        invariant Midway(w, source, old(tables), tables, source.order[..i])
      {
        ImportedOne(w, source, old(tables), tables, i);
        ImportTable(source.order[i], source.rows[source.order[i]]);
      }
      assert source.order[..|source.order|] == source.order;
      MidwayDone(w, source, old(tables), tables);
    }

    method ManifestOf(names: seq<Name>) returns (manifest: Manifest)
      requires Lists(names, tables)
      ensures manifest == TargetManifest(w, tables)
    {
      manifest := ReadManifest(w, tables, names);
    }

    method ResetSequences(n: Name)
      requires n in tables
      modifies this`next
      ensures next.Keys == old(next.Keys)
      ensures forall column :: SequenceReset(tables[n], n, column, old(next), next)
      ensures forall k :: k in next && k.0 != n ==> next[k] == old(next)[k]
    {
      var left := tables[n].serial;
      while left != {}
        invariant left <= tables[n].serial && next.Keys == old(next.Keys)
        invariant forall column :: column !in left ==> SequenceReset(tables[n], n, column, old(next), next)
        invariant forall k :: k in next && (k.0 != n || k.1 in left) ==> next[k] == old(next)[k]
        decreases |left|
      {
        var column :| column in left;
        left := left - {column};
        var rows := SelectRows(tables[n]);
        var maximum := LargestId(rows, column);
        assert forall row :: row in rows <==> row in tables[n].rows;
        if (n, column) in next && maximum.Some? {
          next := next[(n, column) := maximum.value + 1];
        }
        assert SequenceReset(tables[n], n, column, old(next), next);
      }
    }

    /** The whole import, in one transaction. */
    method MigrateSnapshot(source: Snapshot, apply: bool) returns (outcome: Outcome)
      requires WellFormed(source)
      modifies this
      ensures outcome == Verdict(w, source, old(tables), apply)
      ensures TellsApart(w.hash) && outcome.Report? && outcome.mode == AlreadyMigrated ==> !SomeTableOff(source, tables)
      ensures TellsApart(w.hash) && outcome.Report? && outcome.mode == Applied ==> !SomeTableOff(source, tables)
      ensures if outcome.Report? && outcome.mode == Applied then
                tables == Imported(w, source, old(tables)) && SequencesReset(tables, old(next), next)
              else tables == old(tables) && next == old(next)
    {
      if TellsApart(w.hash) {
        DifferenceIsNoticed(w, source, tables, apply, Verdict(w, source, tables, apply));
      }
      if |source.order| != EXPECTED_TABLE_COUNT || tables.Keys != source.rows.Keys { return Failed(WrongTables); }
      var sourceManifest := ManifestOfSource(w, source);
      var targetManifest := ManifestOf(source.order);
      if !SchemasMatch(w, sourceManifest, targetManifest) { return Failed(SchemaDiffers); }
      if SameData(sourceManifest, targetManifest) { return Report(AlreadyMigrated, sourceManifest); }
      if !AllEmpty(targetManifest) { return Failed(TargetNotEmpty); }
      if !apply { return Report(DryRun, sourceManifest); }
      var done, _ := ImportChecked(source, sourceManifest);
      return if done then Report(Applied, sourceManifest) else Failed(Mismatch);
    }

    /** All tables, the final check, and the sequences; a failed check rolls the transaction back. */
    method ImportChecked(source: Snapshot, sourceManifest: Manifest) returns (done: bool, ghost after: Manifest)
      requires WellFormed(source) && sourceManifest == SourceManifest(w, source) && Suitable(w, source, tables)
      modifies this
      ensures after == TargetManifest(w, Imported(w, source, old(tables))) && after.Keys == sourceManifest.Keys
      ensures done <==> SameData(sourceManifest, after)
      ensures done ==> tables == Imported(w, source, old(tables))
      ensures done ==> SequencesReset(tables, old(next), next)
      ensures !done ==> tables == old(tables) && next == old(next)
    {
      var before, start := tables, next;
      var imported := ImportAndRead(source);
      after := imported;
      done := Conclude(source.order, sourceManifest, imported, before, start);
    }

    /** The final check of the import, and what follows from it. */
    method Conclude(names: seq<Name>, sourceManifest: Manifest, imported: Manifest, before: map<Name, Table>,
                    start: map<(Name, nat), int>)
      returns (done: bool)
      requires Lists(names, tables) && next == start
      modifies this
      ensures done <==> SchemasMatch(w, sourceManifest, imported) && SameData(sourceManifest, imported)
      ensures done ==> tables == old(tables) && SequencesReset(tables, start, next)
      ensures !done ==> tables == before && next == start
    {
      done := SchemasMatch(w, sourceManifest, imported) && SameData(sourceManifest, imported);
      if done {
        ResetAll(names);
      } else {
        tables := before;
      }
    }

    method ImportAndRead(source: Snapshot) returns (imported: Manifest)
      requires WellFormed(source) && Suitable(w, source, tables)
      modifies this`tables
      ensures tables == Imported(w, source, old(tables))
      ensures imported == TargetManifest(w, Imported(w, source, old(tables)))
      ensures SchemasMatch(w, SourceManifest(w, source), imported) && Lists(source.order, tables)
    {
      ghost var goal := Imported(w, source, tables);
      ImportedSuitable(w, source, tables);
      ImportAll(source);
      assert tables == goal;
      imported := ManifestOf(source.order);
    }

    method ResetAll(names: seq<Name>)
      requires Lists(names, tables)
      modifies this`next
      ensures SequencesReset(tables, old(next), next)
    {
      for i := 0 to |names|
        invariant next.Keys == old(next.Keys)
        invariant forall n, column :: n in names[..i] ==> SequenceReset(tables[n], n, column, old(next), next)
        invariant forall k :: k in next && k.0 !in names[..i] ==> next[k] == old(next)[k]
      {
        var n := names[i];
        assert n !in names[..i];
        ghost var earlier := next;
        ResetSequences(n);
        forall m, column | m in names[..i] ensures SequenceReset(tables[m], m, column, old(next), next) {
          assert SequenceReset(tables[m], m, column, old(next), earlier);
        }
        forall column ensures SequenceReset(tables[n], n, column, old(next), next) {
          assert SequenceReset(tables[n], n, column, earlier, next);
        }
        assert names[..i + 1] == names[..i] + [n];
      }
      assert names[..|names|] == names;
    }
  }

  method ManifestOfSource(w: World, source: Snapshot) returns (manifest: Manifest)
    requires WellFormed(source)
    ensures manifest == SourceManifest(w, source)
  {
    ghost var full := SourceManifest(w, source);
    manifest := map[];
    for i := 0 to |source.order|
      invariant SoFar(full, source.order, i, manifest)
    {
      var n := source.order[i];
      SoFarNext(full, source.order, i, manifest);
      var digest := DigestRows(w.hash, source.rows[n]);
      manifest := manifest[n := Entry(source.schemas[n], |source.rows[n]|, digest)];
    }
    SoFarComplete(full, source.order, manifest);
  }

  /** After an import every sequence that has any stored id below or above it starts above all of them. */
  lemma IdsAreBelow(tables: map<Name, Table>, before: map<(Name, nat), int>, after: map<(Name, nat), int>,
                    n: Name, column: nat, row: Row)
    requires SequencesReset(tables, before, after) && n in tables && (n, column) in before
    requires column in tables[n].serial && row in tables[n].rows && HasId(row, column)
    ensures (n, column) in after && IdOf(row, column) < after[(n, column)]
  {
    assert SequenceReset(tables[n], n, column, before, after);
  }

  // ------------------------------------------------------- the rollback copy

  /** What a database stores of a bag of rows it is given in some order. */
  ghost function StoredBag(w: World, bag: multiset<Row>): multiset<Row> { multiset(StoredRows(w, Listed(bag))) }

  lemma {:induction false} StoredIsUnordered(w: World, a: seq<Row>, b: seq<Row>)
    requires multiset(a) == multiset(b)
    ensures multiset(StoredRows(w, a)) == multiset(StoredRows(w, b))
    decreases |a|
  {
    assert |a| == |multiset(a)| == |multiset(b)| == |b|;
    if a != [] {
      var n := |a| - 1;
      assert a[n] in multiset(b);
      var i :| 0 <= i < |b| && b[i] == a[n];
      WithoutBag(a, n);
      WithoutBag(b, i);
      assert Without(a, n) == a[..n];
      StoredIsUnordered(w, a[..n], Without(b, i));
      assert StoredRows(w, a) == StoredRows(w, a[..n]) + [w.stored(a[n])];
      assert StoredRows(w, b) == StoredRows(w, b)[..i] + [w.stored(b[i])] + StoredRows(w, b)[i + 1..];
      assert StoredRows(w, Without(b, i)) == StoredRows(w, b)[..i] + StoredRows(w, b)[i + 1..];
    } else {
      assert b == [];
    }
  }

  /** The copy after its tables have been emptied and refilled. */
  ghost function Rebuilt(w: World, copy: map<Name, Table>, target: map<Name, Table>): map<Name, Table>
    requires copy.Keys == target.Keys
  {
    map n | n in copy :: copy[n].(rows := StoredBag(w, target[n].rows))
  }

  /** The import and the rebuilding give back the rows of the snapshot, each as often as it was there, if
      storing a row and storing it back gives the row again. */
  lemma RoundTrip(w: World, back: World, source: Snapshot, tables: map<Name, Table>, copy: map<Name, Table>, n: Name)
    requires WellFormed(source) && tables.Keys == copy.Keys == source.rows.Keys && n in tables
    requires |tables[n].rows| == 0
    requires forall i :: 0 <= i < |source.rows[n]| ==> back.stored(w.stored(source.rows[n][i])) == source.rows[n][i]
    ensures Rebuilt(back, copy, Imported(w, source, tables))[n].rows == multiset(source.rows[n])
  {
    var there := StoredRows(w, source.rows[n]);
    ImportedEntry(w, source, tables, n);
    StoredIsUnordered(back, there, Listed(multiset(there)));
    assert StoredRows(back, there) == source.rows[n];
  }

  /** Rebuilding passes its final check if storing back does not change a row's hash. */
  lemma RebuiltAgrees(w: World, copy: map<Name, Table>, target: map<Name, Table>)
    requires copy.Keys == target.Keys
    requires forall n, row :: n in target && row in target[n].rows ==> w.hash(w.stored(row)) == w.hash(row)
    ensures SameData(TargetManifest(w, target), TargetManifest(w, Rebuilt(w, copy, target)))
  {
    forall n | n in target
      ensures |Rebuilt(w, copy, target)[n].rows| == |target[n].rows|
      ensures BagDigest(w.hash, Rebuilt(w, copy, target)[n].rows) == BagDigest(w.hash, target[n].rows)
    {
      var rows := Listed(target[n].rows);
      assert |rows| == |multiset(rows)|;
      assert |multiset(StoredRows(w, rows))| == |rows|;
      forall i | 0 <= i < |rows| ensures w.hash(w.stored(rows[i])) == w.hash(rows[i]) {
        assert rows[i] in multiset(rows);
      }
      StoredDigest(w, rows);
      AnyOrder(w.hash, StoredBag(w, target[n].rows), StoredRows(w, rows));
    }
  }

  /** The copy when the tables in `done` are as in `goal` and the others are still empty. */
  ghost predicate HalfRebuilt(goal: map<Name, Table>, tables: map<Name, Table>, done: seq<Name>) {
    goal.Keys == tables.Keys &&
    forall n :: n in tables ==> tables[n] == if n in done then goal[n] else goal[n].(rows := multiset{})
  }

  lemma RefilledOne(goal: map<Name, Table>, tables: map<Name, Table>, names: seq<Name>, i: nat)
    requires Lists(names, tables) && i < |names| && HalfRebuilt(goal, tables, names[..i])
    ensures names[i] in tables
    ensures var after := WithRows(tables, names[i], goal[names[i]].rows);
      HalfRebuilt(goal, after, names[..i + 1]) && Lists(names, after)
  {
    var n := names[i];
    assert n in names && n !in names[..i];
    assert names[..i + 1] == names[..i] + [n];
    assert multiset{} + goal[n].rows == goal[n].rows;
  }

  lemma RefilledAll(goal: map<Name, Table>, tables: map<Name, Table>, names: seq<Name>)
    requires HalfRebuilt(goal, tables, names) && Lists(names, tables)
    ensures tables == goal
  {
  }

  /** What rebuilding must answer. */
  ghost function RebuildVerdict(w: World, copy: map<Name, Table>, target: map<Name, Table>): Outcome
    requires copy.Keys == target.Keys
  {
    Judged(w, TargetManifest(w, target), TargetManifest(w, Rebuilt(w, copy, target)), w.sound(Rebuilt(w, copy, target)))
  }

  /** Rebuilding goes through if the copy has the schema the target was found to match, storing back keeps hashes,
      and the copy passes SQLite's own checks. */
  lemma RebuildGoesThrough(w: World, copy: map<Name, Table>, target: map<Name, Table>)
    requires copy.Keys == target.Keys && w.sound(Rebuilt(w, copy, target))
    requires forall n :: n in copy ==> w.matches(copy[n].schema, target[n].schema)
    requires forall n, row :: n in target && row in target[n].rows ==> w.hash(w.stored(row)) == w.hash(row)
    ensures RebuildVerdict(w, copy, target) == Report(Applied, TargetManifest(w, Rebuilt(w, copy, target)))
  {
    RebuiltAgrees(w, copy, target);
    RebuiltMatches(w, copy, target);
  }

  lemma RebuiltMatches(w: World, copy: map<Name, Table>, target: map<Name, Table>)
    requires copy.Keys == target.Keys && forall n :: n in copy ==> w.matches(copy[n].schema, target[n].schema)
    ensures SchemasMatch(w, TargetManifest(w, Rebuilt(w, copy, target)), TargetManifest(w, target))
  {
    forall n | n in copy ensures Rebuilt(w, copy, target)[n].schema == copy[n].schema {}
  }

  function Judged(w: World, manifest: Manifest, copied: Manifest, sound: bool): Outcome
    requires manifest.Keys == copied.Keys
  {
    if !SchemasMatch(w, copied, manifest) then Failed(SchemaDiffers)
    else if !SameData(manifest, copied) then Failed(Mismatch)
    else if !sound then Failed(CheckFailed)
    else Report(Applied, copied)
  }

  /** What a rebuilt copy that is reported says: it passed SQLite's checks, its schemas match, it has as many rows in
      every table, and, with hashes that tell rows apart, no table of it is off by one row. */
  lemma RebuildNotices(w: World, copy: map<Name, Table>, target: map<Name, Table>, verdict: Outcome, n: Name)
    requires copy.Keys == target.Keys && n in target && verdict == RebuildVerdict(w, copy, target) && verdict.Report?
    ensures verdict.mode == Applied && w.sound(Rebuilt(w, copy, target))
    ensures w.matches(copy[n].schema, target[n].schema) && |Rebuilt(w, copy, target)[n].rows| == |target[n].rows|
    ensures TellsApart(w.hash) ==> !OffByOne(Listed(target[n].rows), Rebuilt(w, copy, target)[n].rows)
  {
    var rows, there := Listed(target[n].rows), Rebuilt(w, copy, target)[n].rows;
    assert TargetManifest(w, target)[n].digest == TargetManifest(w, Rebuilt(w, copy, target))[n].digest;
    assert TargetManifest(w, Rebuilt(w, copy, target))[n].schema == copy[n].schema;
    if TellsApart(w.hash) && OffByOne(rows, there) {
      var common, x, y :| OffBy(rows, there, common, x, y);
      AnyOrder(w.hash, target[n].rows, rows);
      OneRowTells(w.hash, rows, there, common, x, y);
      assert false;
    }
  }

  lemma GatherOne(rows: seq<Row>, i: nat, batch: seq<Row>)
    requires |batch| <= i < |rows| && batch == rows[i - |batch|..i]
    ensures batch + [rows[i]] == rows[i - |batch|..i + 1]
  {
  }

  class Copy {
    const w: World
    var tables: map<Name, Table>

    /** The first `i` rows have been inserted. */
    ghost predicate Written(tables: map<Name, Table>, before: map<Name, Table>, n: Name, rows: seq<Row>, i: nat)
      requires n in before && i <= |rows|
    {
      tables == WithRows(before, n, multiset(StoredRows(w, rows)[..i]))
    }

    /** Rows gather in `batch`; a full batch is written and cleared, and what is left at the end is written. */
    method Refill(n: Name, rows: seq<Row>)
      requires n in tables
      modifies this`tables
      ensures tables == WithRows(old(tables), n, multiset(StoredRows(w, rows)))
    {
      var batch: seq<Row> := [];
      WithRowsTwice(tables, n, multiset{}, multiset{});
      for i := 0 to |rows|
        invariant |batch| < BATCH_SIZE && |batch| <= i && batch == rows[i - |batch|..i] && n in tables
        invariant Written(tables, old(tables), n, rows, i - |batch|)
      {
        GatherOne(rows, i, batch);
        batch := batch + [rows[i]];
        if |batch| == BATCH_SIZE {
          Flush(n, rows, i + 1 - |batch|, batch, old(tables));
          batch := [];
        }
      }
      if |batch| > 0 { Flush(n, rows, |rows| - |batch|, batch, old(tables)); }
      assert StoredRows(w, rows)[..|rows|] == StoredRows(w, rows);
    }

    method Flush(n: Name, ghost rows: seq<Row>, ghost from: nat, batch: seq<Row>, ghost before: map<Name, Table>)
      requires n in tables && n in before && from + |batch| <= |rows| && batch == rows[from..from + |batch|]
      requires Written(tables, before, n, rows, from)
      modifies this`tables
      ensures n in tables && Written(tables, before, n, rows, from + |batch|)
    {
      WithRowsTwice(before, n, multiset(StoredRows(w, rows)[..from]), multiset(StoredRows(w, batch)));
      tables := InsertRows(w, tables, n, batch);
      StoredUpTo(w, rows, from, batch);
    }

    /** Every table emptied, then refilled from the target, in one transaction of the copy. */
    method ReplaceBusinessRows(names: seq<Name>, manifest: Manifest, target: Target) returns (outcome: Outcome)
      requires Lists(names, tables) && tables.Keys == target.tables.Keys
      requires target.w.hash == w.hash && manifest == TargetManifest(w, target.tables)
      modifies this`tables
      ensures outcome == RebuildVerdict(w, old(tables), target.tables)
      ensures outcome.Report? ==> tables == Rebuilt(w, old(tables), target.tables)
      ensures outcome.Failed? ==> tables == old(tables)
    {
      outcome := ReplaceFrom(names, manifest, target.tables);
    }

    method ReplaceFrom(names: seq<Name>, manifest: Manifest, from: map<Name, Table>) returns (outcome: Outcome)
      requires Lists(names, tables) && tables.Keys == from.Keys && manifest == TargetManifest(w, from)
      modifies this`tables
      ensures outcome == RebuildVerdict(w, old(tables), from)
      ensures outcome.Report? ==> tables == Rebuilt(w, old(tables), from)
      ensures outcome.Failed? ==> tables == old(tables)
    {
      var before := tables;
      RebuildTables(names, from);
      outcome := Judge(names, manifest);
      if outcome.Failed? { tables := before; }
    }

    method Judge(names: seq<Name>, manifest: Manifest) returns (outcome: Outcome)
      requires Lists(names, tables) && manifest.Keys == tables.Keys
      ensures outcome == Judged(w, manifest, TargetManifest(w, tables), w.sound(tables))
    {
      var copied := ReadManifest(w, tables, names);
      if !SchemasMatch(w, copied, manifest) { return Failed(SchemaDiffers); }
      if !SameData(manifest, copied) { return Failed(Mismatch); }
      if !w.sound(tables) { return Failed(CheckFailed); }
      return Report(Applied, copied);
    }

    method RebuildTables(names: seq<Name>, from: map<Name, Table>)
      requires Lists(names, tables) && tables.Keys == from.Keys
      modifies this`tables
      ensures tables == Rebuilt(w, old(tables), from) && tables.Keys == old(tables).Keys && Lists(names, tables)
    {
      ghost var goal := Rebuilt(w, tables, from);
      DeleteAll(names);
      RefillAll(names, from, goal);
    }

    method DeleteAll(names: seq<Name>)
      requires Lists(names, tables)
      modifies this`tables
      ensures tables.Keys == old(tables).Keys
      ensures forall n :: n in tables ==> tables[n] == old(tables)[n].(rows := multiset{})
    {
      for i := 0 to |names|
        invariant tables.Keys == old(tables).Keys
        invariant forall n :: n in tables ==>
          tables[n] == if n in names[..i] then old(tables)[n].(rows := multiset{}) else old(tables)[n]
      {
        tables := tables[names[i] := tables[names[i]].(rows := multiset{})];
        assert names[..i + 1] == names[..i] + [names[i]];
      }
      assert names[..|names|] == names;
    }

    method RefillTable(n: Name, from: Table)
      requires n in tables
      modifies this`tables
      ensures tables == WithRows(old(tables), n, StoredBag(w, from.rows))
    {
      var rows := SelectRows(from);
      StoredIsUnordered(w, rows, Listed(from.rows));
      Refill(n, rows);
    }

    method RefillAll(names: seq<Name>, from: map<Name, Table>, ghost goal: map<Name, Table>)
      requires Lists(names, tables) && tables.Keys == from.Keys && HalfRebuilt(goal, tables, [])
      requires forall n :: n in from ==> goal[n].rows == StoredBag(w, from[n].rows)
      modifies this`tables
      ensures tables == goal
    {
      for i := 0 to |names|
        invariant Lists(names, tables) && HalfRebuilt(goal, tables, names[..i])
      {
        RefilledOne(goal, tables, names, i);
        RefillTable(names[i], from[names[i]]);
      }
      assert names[..|names|] == names;
      RefilledAll(goal, tables, names);
    }
  }
}
