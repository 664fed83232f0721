// Change requests: how a captured row becomes one, and the write it stands for.
module Changes {
  import opened Common
  import opened Lsn
  import opened Replica
  import opened Mapping
  import opened Source

  datatype Operation = Unspecified | Delete | Insert | UpdateOld | UpdateNew

  // A change on the wire. The two JSON documents are their decoded objects; None is a text that
  // does not decode.
  datatype Change = Change(batchId: string, lsn: Lsn, sequenceNumber: nat, operation: Operation,
                           schemaName: string, tableName: string,
                           primaryKey: Option<Row>, rowData: Option<Row>, columns: seq<ColumnMeta>)

  // __$operation as SQL Server numbers it.
  function OperationOf(op: int): Operation {
    if op == 1 then Delete
    else if op == 2 then Insert
    else if op == 3 then UpdateOld
    else if op == 4 then UpdateNew
    else Unspecified
  }

  // ---------- row and key ----------

  // The first n columns with their values, a later column of the same name overwriting an earlier.
  function RowUpTo(columns: seq<ColumnMeta>, values: seq<Val>, n: nat): Row
    requires n <= |columns| && n <= |values|
  {
    if n == 0 then map[] else RowUpTo(columns, values, n - 1)[columns[n - 1].name := values[n - 1]]
  }

  function KeyUpTo(columns: seq<ColumnMeta>, values: seq<Val>, n: nat): Row
    requires n <= |columns| && n <= |values|
  {
    if n == 0 then map[]
    else if columns[n - 1].isPrimaryKey then KeyUpTo(columns, values, n - 1)[columns[n - 1].name := values[n - 1]]
    else KeyUpTo(columns, values, n - 1)
  }

  function Width(columns: seq<ColumnMeta>, values: seq<Val>): nat {
    if |columns| <= |values| then |columns| else |values|
  }

  function RowData(columns: seq<ColumnMeta>, values: seq<Val>): Row {
    RowUpTo(columns, values, Width(columns, values))
  }

  function KeyData(columns: seq<ColumnMeta>, values: seq<Val>): Row {
    KeyUpTo(columns, values, Width(columns, values))
  }

  // The names of the primary-key columns, in column order.
  function KeyNames(columns: seq<ColumnMeta>): seq<string> {
    if columns == [] then []
    else (if columns[0].isPrimaryKey then [columns[0].name] else []) + KeyNames(columns[1..])
  }

  function Project(row: Row, names: set<string>): Row {
    map col | col in row && col in names :: row[col]
  }

  function Names(names: seq<string>): set<string> {
    set name | name in names
  }

  predicate DistinctNames(columns: seq<ColumnMeta>) {
    forall i, j :: 0 <= i < j < |columns| ==> columns[i].name != columns[j].name
  }

  lemma {:induction false} KeyNamesMember(columns: seq<ColumnMeta>, name: string)
    ensures name in KeyNames(columns)
            <==> exists i :: 0 <= i < |columns| && columns[i].isPrimaryKey && columns[i].name == name
  {
    if columns != [] {
      KeyNamesMember(columns[1..], name);
      if i :| 0 <= i < |columns| && columns[i].isPrimaryKey && columns[i].name == name {
        if i > 0 { assert columns[1..][i - 1] == columns[i]; }
      }
      if i :| 0 <= i < |columns[1..]| && columns[1..][i].isPrimaryKey && columns[1..][i].name == name {
        assert columns[i + 1] == columns[1..][i];
      }
    }
  }

  lemma ProjectUpdate(row: Row, names: set<string>, name: string, val: Val)
    requires name !in row
    ensures Project(row[name := val], names)
            == if name in names then Project(row, names)[name := val] else Project(row, names)
  {
  }

  lemma {:induction false} RowUpToNames(columns: seq<ColumnMeta>, values: seq<Val>, n: nat, name: string)
    requires n <= |columns| && n <= |values|
    ensures name in RowUpTo(columns, values, n) <==> exists i :: 0 <= i < n && columns[i].name == name
  {
    if n > 0 {
      RowUpToNames(columns, values, n - 1, name);
    }
  }

  lemma {:induction false} KeyUpToIsProjection(columns: seq<ColumnMeta>, values: seq<Val>, n: nat)
    requires n <= |columns| && n <= |values| && DistinctNames(columns)
    ensures KeyUpTo(columns, values, n) == Project(RowUpTo(columns, values, n), Names(KeyNames(columns)))
  {
    if n > 0 {
      KeyUpToIsProjection(columns, values, n - 1);
      var name := columns[n - 1].name;
      KeyNamesMember(columns, name);
      RowUpToNames(columns, values, n - 1, name);
      assert name in KeyNames(columns) <==> columns[n - 1].isPrimaryKey;
      ProjectUpdate(RowUpTo(columns, values, n - 1), Names(KeyNames(columns)), name, values[n - 1]);
    }
  }

  // With distinct column names every captured value is found under its own column.
  lemma {:induction false} RowHoldsValues(columns: seq<ColumnMeta>, values: seq<Val>, n: nat, i: nat)
    requires n <= |columns| && n <= |values| && DistinctNames(columns) && i < n
    ensures columns[i].name in RowUpTo(columns, values, n) && RowUpTo(columns, values, n)[columns[i].name] == values[i]
  {
    if i < n - 1 {
      RowHoldsValues(columns, values, n - 1, i);
    }
  }

  // The key a delete uses is the row's own projection on the primary-key columns, which is what an
  // upsert of the same row conflicts on.
  lemma {:induction false} KeyAgreement(columns: seq<ColumnMeta>, values: seq<Val>)
    requires DistinctNames(columns)
    ensures KeyData(columns, values) == Project(RowData(columns, values), Names(KeyNames(columns)))
    ensures |values| >= |columns| ==> KeyData(columns, values).Keys == Names(KeyNames(columns))
  {
    var n := Width(columns, values);
    KeyUpToIsProjection(columns, values, n);
    if |values| >= |columns| {
      forall name | name in KeyNames(columns)
        ensures name in RowData(columns, values)
      {
        KeyNamesMember(columns, name);
        RowUpToNames(columns, values, n, name);
      }
    }
  }

  function ColumnNames(columns: seq<ColumnMeta>): set<string> {
    set i | 0 <= i < |columns| :: columns[i].name
  }

  // A complete row of a table with a key has all of the table's columns.
  lemma FullRow(columns: seq<ColumnMeta>, values: seq<Val>)
    requires DistinctNames(columns) && KeyNames(columns) != [] && |values| >= |columns|
    ensures RowData(columns, values).Keys == ColumnNames(columns)
    ensures RowData(columns, values) != map[] && KeyData(columns, values) != map[]
  {
    KeyAgreement(columns, values);
    assert KeyNames(columns)[0] in KeyData(columns, values).Keys;
    assert KeyNames(columns)[0] in RowData(columns, values).Keys;
    forall name: string
      ensures name in RowData(columns, values) <==> name in ColumnNames(columns)
    {
      RowUpToNames(columns, values, Width(columns, values), name);
    }
  }

  // ---------- from captured row to change ----------

  function ToChange(cap: Capture, e: Entry, sequenceNumber: nat): Change {
    Change("", e.lsn, sequenceNumber, OperationOf(e.op), cap.schema, cap.table,
           Some(KeyData(cap.columns, e.values)), Some(RowData(cap.columns, e.values)), cap.columns)
  }

  // The k-th row of a poll is numbered by the rows of its table that came before it.
  function Render(captures: seq<Capture>, rows: seq<Entry>, n: nat): (r: seq<Change>)
    requires n <= |rows| && forall e :: e in rows ==> e.capture < |captures|
    ensures |r| == n
  {
    if n == 0 then []
    else
      var e := rows[n - 1];
      Render(captures, rows, n - 1) + [ToChange(captures[e.capture], e, |Of(rows[..n - 1], e.capture)|)]
  }

  // ---------- the write a change stands for ----------

  // Before-images, unknown operations, empty rows and empty keys write nothing.
  function OpWrites(operation: Operation, table: string, key: Row, row: Row): seq<Write> {
    match operation
    case Insert | UpdateNew => if row == map[] then [] else [Write(Key(table, key), Put(row))]
    case Delete => if key == map[] then [] else [Write(Key(table, key), Del)]
    case UpdateOld | Unspecified => []
  }

  // The table a change names, after the server's schema overrides.
  function TargetTable(mappings: seq<SchemaMapping>, c: Change): string {
    Dotted(MapSchema(mappings, c.schemaName), c.tableName)
  }

  function ChangeWrites(mappings: seq<SchemaMapping>, c: Change): seq<Write> {
    if c.primaryKey.Some? && c.rowData.Some?
    then OpWrites(c.operation, TargetTable(mappings, c), c.primaryKey.value, c.rowData.value)
    else []
  }

  function BatchWrites(mappings: seq<SchemaMapping>, changes: seq<Change>): seq<Write> {
    if changes == [] then []
    else ChangeWrites(mappings, changes[0]) + BatchWrites(mappings, changes[1..])
  }

  lemma {:induction false} BatchWritesConcat(mappings: seq<SchemaMapping>, a: seq<Change>, b: seq<Change>)
    ensures BatchWrites(mappings, a + b) == BatchWrites(mappings, a) + BatchWrites(mappings, b)
  {
    if a == [] {
      assert a + b == b;
    } else {
      assert (a + b)[1..] == a[1..] + b;
      BatchWritesConcat(mappings, a[1..], b);
    }
  }
}
