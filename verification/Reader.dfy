// The SQL Server reader: polls the captured tables one after another and turns rows into change requests.
module Reader {
  import opened Common
  import opened Lsn
  import opened Sequences
  import opened Replica
  import opened Source
  import opened Changes
  import opened Client

  // The changes made from the rows of one table, numbered from zero.
  function TableChanges(cap: Capture, rows: seq<Entry>): seq<Change> {
    seq(|rows|, k requires 0 <= k < |rows| => ToChange(cap, rows[k], k))
  }

  predicate Within(captures: seq<Capture>, rows: seq<Entry>) {
    forall e :: e in rows ==> e.capture < |captures|
  }

  function RenderAll(captures: seq<Capture>, rows: seq<Entry>): seq<Change>
    requires Within(captures, rows)
  {
    Render(captures, rows, |rows|)
  }

  lemma {:induction false} RenderPrefix(captures: seq<Capture>, a: seq<Entry>, b: seq<Entry>, n: nat)
    requires Within(captures, a + b) && Within(captures, a) && n <= |a|
    ensures Render(captures, a + b, n) == Render(captures, a, n)
  {
    if n > 0 {
      RenderPrefix(captures, a, b, n - 1);
      assert (a + b)[..n - 1] == a[..n - 1];
    }
  }

  lemma RenderOne(captures: seq<Capture>, rows: seq<Entry>, e: Entry)
    requires Within(captures, rows) && e.capture < |captures|
    ensures Within(captures, rows + [e])
    ensures RenderAll(captures, rows + [e])
            == RenderAll(captures, rows) + [ToChange(captures[e.capture], e, |Of(rows, e.capture)|)]
  {
    assert (rows + [e])[..|rows|] == rows && (rows + [e])[|rows|] == e;
    RenderPrefix(captures, rows, [e], |rows|);
  }

  // Every change keeps its row's LSN and table, and its number is how many rows of its table the poll returned before.
  lemma {:induction false} RenderedNumbers(captures: seq<Capture>, rows: seq<Entry>, k: nat)
    requires Within(captures, rows) && k < |rows|
    ensures var c, cap := RenderAll(captures, rows)[k], captures[rows[k].capture];
            && c.sequenceNumber == |Of(rows[..k], rows[k].capture)|
            && c.lsn == rows[k].lsn && c.columns == cap.columns
            && c.schemaName == cap.schema && c.tableName == cap.table
  {
    if k == |rows| - 1 {
      RenderOne(captures, rows[..k], rows[k]);
      assert rows == rows[..k] + [rows[k]];
    } else {
      var init, last := rows[..|rows| - 1], rows[|rows| - 1];
      assert rows == init + [last] && init[..k] == rows[..k];
      RenderOne(captures, init, last);
      RenderedNumbers(captures, init, k);
    }
  }

  lemma TableChangesOne(cap: Capture, rows: seq<Entry>, e: Entry)
    ensures TableChanges(cap, rows + [e]) == TableChanges(cap, rows) + [ToChange(cap, e, |rows|)]
  {
  }

  lemma PartSoFar(rows: seq<Entry>, part: seq<Entry>, i: nat)
    requires Of(rows, i) == [] && forall e :: e in part ==> e.capture == i
    ensures Of(rows + part, i) == part
  {
    FilterConcat((x: Entry) => x.capture == i, rows, part);
    OfOther(part, i, i);
  }

  lemma RenderNext(captures: seq<Capture>, rows: seq<Entry>, init: seq<Entry>, e: Entry, i: nat)
    requires i < |captures| && Of(rows, i) == [] && e.capture == i && forall x :: x in init ==> x.capture == i
    requires Within(captures, rows + init) && Within(captures, rows)
    requires RenderAll(captures, rows + init) == RenderAll(captures, rows) + TableChanges(captures[i], init)
    ensures Within(captures, rows + init + [e])
    ensures RenderAll(captures, rows + init + [e]) == RenderAll(captures, rows) + TableChanges(captures[i], init + [e])
  {
    RenderOne(captures, rows + init, e);
    TableChangesOne(captures[i], init, e);
    PartSoFar(rows, init, i);
  }

  // One more table's changes, numbered from zero, are what its rows render to after those of other tables.
  lemma {:induction false} RenderPart(captures: seq<Capture>, rows: seq<Entry>, part: seq<Entry>, i: nat)
    requires Within(captures, rows) && i < |captures|
    requires Of(rows, i) == [] && forall e :: e in part ==> e.capture == i
    ensures Within(captures, rows + part)
    ensures RenderAll(captures, rows + part) == RenderAll(captures, rows) + TableChanges(captures[i], part)
    decreases |part|
  {
    if part == [] {
      assert rows + part == rows;
    } else {
      var init, e := part[..|part| - 1], part[|part| - 1];
      RenderPart(captures, rows, init, i);
      RenderNext(captures, rows, init, e, i);
      assert part == init + [e];
      assert rows + part == rows + init + [e];
    }
  }

  ghost predicate Distinct(changes: seq<ChangeRequest>) {
    forall i, j :: 0 <= i < j < |changes| ==> changes[i] != changes[j]
  }

  lemma DistinctConcat(a: seq<ChangeRequest>, b: seq<ChangeRequest>)
    requires Distinct(a) && Distinct(b) && forall c :: c in b ==> c !in a
    ensures Distinct(a + b)
  {
    forall i, j | 0 <= i < j < |a + b|
      ensures (a + b)[i] != (a + b)[j]
    {
      if i < |a| <= j { assert a[i] in a && b[j - |a|] in b; }
    }
  }

  lemma WiresConcat(a: seq<ChangeRequest>, b: seq<ChangeRequest>)
    ensures Wires(a + b) == Wires(a) + Wires(b)
  {
  }

  lemma ChangesAppended(captures: seq<Capture>, all: seq<ChangeRequest>, more: seq<ChangeRequest>, rows: seq<Entry>,
                        part: seq<Entry>)
    requires Distinct(all) && Distinct(more) && forall c :: c in more ==> c !in all
    requires Within(captures, rows) && Within(captures, rows + part)
    requires Wires(all) == RenderAll(captures, rows)
    requires RenderAll(captures, rows + part) == RenderAll(captures, rows) + Wires(more)
    ensures Distinct(all + more) && Wires(all + more) == RenderAll(captures, rows + part)
  {
    DistinctConcat(all, more);
    WiresConcat(all, more);
  }

  function Schemas(db: SourceDb): set<string> {
    set cap | cap in db.captures :: cap.schema
  }

  // Metadata is fixed: every captured table has the columns `truth` says, and no captured schema is another one
  // extended by a dot.
  ghost predicate FixedMetadata(db: SourceDb, truth: (string, string) -> seq<ColumnMeta>) {
    NoneExtends(Schemas(db)) && forall cap :: cap in db.captures ==> cap.columns == truth(cap.schema, cap.table)
  }

  class MSSQLReader {
    var db: SourceDb // what the connected database shows
    var schemaCache: map<string, seq<ColumnMeta>>
    ghost const truth: (string, string) -> seq<ColumnMeta>

    constructor (db: SourceDb, ghost truth: (string, string) -> seq<ColumnMeta>)
      requires WellFormed(db) && FixedMetadata(db, truth)
      ensures Valid() && this.db == db && this.truth == truth
    {
      this.db, schemaCache, this.truth := db, map[], truth;
    }

    ghost predicate Valid()
      reads this
    {
      WellFormed(db) && FixedMetadata(db, truth) && CacheAgrees(schemaCache, truth, Schemas(db))
    }

    method RowToChangeRequest(cap: Capture, columns: seq<ColumnMeta>, e: Entry, sequence: nat)
      returns (change: ChangeRequest)
      ensures fresh(change) && change.Wire() == ToChange(cap.(columns := columns), e, sequence)
      ensures change.lsn == e.lsn && change.sequenceNumber == sequence && change.columns == columns
      ensures change.batchId == "" && change.schemaName == cap.schema && change.tableName == cap.table
      ensures change.operation == if e.op == 1 then Delete
                                  else if e.op == 2 then Insert
                                  else if e.op == 3 then UpdateOld
                                  else if e.op == 4 then UpdateNew
                                  else Unspecified
      ensures change.rowData.Some? && change.primaryKey.Some?
      ensures forall name :: name in change.rowData.value
                             <==> exists i :: 0 <= i < |columns| && i < |e.values| && columns[i].name == name
    {
      var pkData: Row, rowData: Row := map[], map[];
      var i := 0;
      while i < |columns|
        invariant i <= |columns| && i <= |e.values|
        invariant rowData == RowUpTo(columns, e.values, i) && pkData == KeyUpTo(columns, e.values, i)
      {
        if i >= |e.values| {
          break;
        }
        rowData := rowData[columns[i].name := e.values[i]];
        if columns[i].isPrimaryKey {
          pkData := pkData[columns[i].name := e.values[i]];
        }
        i := i + 1;
      }
      forall name: string
        ensures name in rowData <==> exists i :: 0 <= i < |columns| && i < |e.values| && columns[i].name == name
      {
        RowUpToNames(columns, e.values, i, name);
      }
      change := new ChangeRequest(e.lsn, sequence, OperationOf(e.op), cap.schema, cap.table, pkData, rowData, columns);
    }

    // The columns of a captured table: from the cache, else from the catalog and then cached.
    method ColumnsOf(cap: Capture) returns (columns: seq<ColumnMeta>)
      requires Valid() && cap in db.captures
      modifies this`schemaCache
      ensures Valid() && columns == cap.columns
    {
      var tableKey := Dotted(cap.schema, cap.table);
      if tableKey in schemaCache {
        columns := schemaCache[tableKey];
      } else {
        columns := cap.columns;
        CacheAgreesInsert(schemaCache, truth, Schemas(db), cap.schema, cap.table);
        schemaCache := schemaCache[tableKey := columns];
      }
    }

    method ReadTableChanges(i: nat, fromLsn: Lsn, batchSize: nat, fault: ReadFault)
      returns (r: Result<seq<ChangeRequest>, ()>)
      requires Valid() && i < |db.captures|
      modifies this`schemaCache
      ensures Valid() && (r.Err? <==> fault.Skipped?)
      ensures r.Ok? ==> (forall c :: c in r.value ==> fresh(c)) && Distinct(r.value)
      ensures r.Ok?
              ==> var rows := if fault.Healthy? then Window(db, i, fromLsn, batchSize) else [];
                  Wires(r.value) == TableChanges(db.captures[i], rows)
    {
      if fault.Skipped? {
        return Err(());
      }
      var cap := db.captures[i];
      var effectiveLsn := fromLsn;
      if |cap.minLsn| > 0 && CompareBytes(cap.minLsn, fromLsn) > 0 {
        effectiveLsn := cap.minLsn;
      }
      var columns := ColumnsOf(cap);
      if fault.Swallowed? {
        return Ok([]);
      }
      var changes := RowsToChanges(cap, columns, Take(RowsFrom(db, i, effectiveLsn), batchSize));
      r := Ok(changes);
    }

    method RowsToChanges(cap: Capture, columns: seq<ColumnMeta>, rows: seq<Entry>) returns (changes: seq<ChangeRequest>)
      ensures (forall c :: c in changes ==> fresh(c)) && Distinct(changes)
      ensures Wires(changes) == TableChanges(cap.(columns := columns), rows)
    {
      changes := [];
      for k := 0 to |rows|
        invariant |changes| == k && Distinct(changes) && forall c :: c in changes ==> fresh(c)
        invariant forall j :: 0 <= j < k ==> changes[j].Wire() == TableChanges(cap.(columns := columns), rows)[j]
      {
        var change := RowToChangeRequest(cap, columns, rows[k], k);
        changes := changes + [change];
      }
    }

    // Poll all captured tables; `fails` says that asking for the LSN range or the table list fails.
    method PollChanges(fromPosition: Lsn, batchSize: nat, faults: seq<ReadFault>, fails: bool)
      returns (r: Result<(seq<ChangeRequest>, Lsn), ()>)
      requires Valid()
      modifies this`schemaCache
      ensures Valid() && (r.Err? <==> fails)
      ensures r.Ok? ==> (forall c :: c in r.value.0 ==> fresh(c)) && Distinct(r.value.0)
      ensures r.Ok? ==> var p := Poll(db, fromPosition, batchSize, faults);
                        && Within(db.captures, p.entries)
                        && Wires(r.value.0) == RenderAll(db.captures, p.entries) && r.value.1 == p.maxLsn
    {
      if fails {
        return Err(());
      }
      if |db.maxLsn| == 0 {
        return Ok(([], []));
      }
      var minLsn := MinLsn(db.captures);
      var startLsn := minLsn;
      if |fromPosition| > 0 {
        var nextLsn := Increment(fromPosition);
        if nextLsn.Some? {
          startLsn := nextLsn.value;
        }
      }
      if |startLsn| == 0 {
        return Ok(([], []));
      }
      ghost var rows;
      var all;
      all, rows := ReadAll(startLsn, batchSize, faults);
      r := Ok((all, db.maxLsn));
    }

    // The tables in turn, until the batch is full.
    method ReadAll(startLsn: Lsn, batchSize: nat, faults: seq<ReadFault>)
      returns (all: seq<ChangeRequest>, ghost rows: seq<Entry>)
      requires Valid()
      modifies this`schemaCache
      ensures Valid() && (forall c :: c in all ==> fresh(c)) && Distinct(all)
      ensures rows == ReadTables(db, 0, startLsn, batchSize, faults, [])
      ensures Within(db.captures, rows) && Wires(all) == RenderAll(db.captures, rows)
    {
      all, rows := [], [];
      var i := 0;
      while i < |db.captures|
        invariant i <= |db.captures| && Valid() && (forall c :: c in all ==> fresh(c)) && Distinct(all)
        invariant (forall e :: e in rows ==> e.capture < i) && Wires(all) == RenderAll(db.captures, rows)
        invariant ReadTables(db, 0, startLsn, batchSize, faults, [])
                  == ReadTables(db, i, startLsn, batchSize, faults, rows)
      {
        ghost var wires := Wires(all);
        var r := ReadTableChanges(i, startLsn, batchSize, FaultAt(faults, i));
        assert Wires(all) == wires;
        if r.Ok? {
          ghost var part := Part(db, i, startLsn, batchSize, faults);
          PartAppended(db, i, startLsn, batchSize, faults, rows, part);
          ChangesAppended(db.captures, all, r.value, rows, part);
          rows := rows + part;
          all := all + r.value;
          if |all| >= batchSize {
            return;
          }
        }
        i := i + 1;
      }
    }
  }

  lemma PartAppended(db: SourceDb, i: nat, start: Lsn, batchSize: nat, faults: seq<ReadFault>, rows: seq<Entry>,
                     part: seq<Entry>)
    requires i < |db.captures| && !FaultAt(faults, i).Skipped? && part == Part(db, i, start, batchSize, faults)
    requires forall e :: e in rows ==> e.capture < i
    ensures forall e :: e in rows + part ==> e.capture <= i
    ensures RenderAll(db.captures, rows + part) == RenderAll(db.captures, rows) + TableChanges(db.captures[i], part)
    ensures ReadTables(db, i, start, batchSize, faults, rows)
            == if |rows + part| >= batchSize then rows + part
               else ReadTables(db, i + 1, start, batchSize, faults, rows + part)
  {
    WindowRows(db, i, start, batchSize);
    NoneOf(rows, i);
    RenderPart(db.captures, rows, part, i);
  }
}
