// The writer without idempotent mode: which batches it accepts, and which it accepts once more.
module Plain {
  import opened Common
  import opened Sequences
  import opened Replica
  import opened Mapping
  import opened Changes
  import opened Writer

  // ---------- one change ----------

  lemma OneChangeBatch(target: Target, cache: map<string, seq<string>>, c: Change, idempotent: bool, db: DB)
    ensures var a := ApplyChange(target, cache, c, idempotent, Never, db);
            var b := ApplyAll(target, cache, [c], idempotent, None, db);
            && (b.result.Ok? <==> a.result.Ok? && target.constraints(a.result.value.0))
            && (b.result.Ok? ==> b.result.value.0 == a.result.value.0)
  {
    assert ApplyUpTo(target, cache, [c], 0, idempotent, None, db) == Applied(cache, Ok((db, 0)));
  }

  // Whether a change inserts a row without idempotent mode.
  predicate Inserts(c: Change) {
    c.operation in {Insert, UpdateNew} && c.rowData.Some? && c.rowData.value != map[]
  }

  predicate Keyed(target: Target, table: string) {
    table in target.catalog && target.catalog[table].primaryKey != []
  }

  // How many rows of a table have exactly these columns and values.
  function Copies(db: DB, table: string, row: Row): nat {
    |Matching(db, (key: Key, r: Row) => key.table == table && r == row)|
  }

  function Matching<K, V>(m: map<K, V>, f: (K, V) -> bool): set<K> {
    set k | k in m && f(k, m[k])
  }

  lemma MatchingNew<K, V>(m: map<K, V>, f: (K, V) -> bool, k: K, v: V)
    requires k !in m
    ensures |Matching(m[k := v], f)| == |Matching(m, f)| + if f(k, v) then 1 else 0
  {
    var before, after := Matching(m, f), Matching(m[k := v], f);
    assert k !in before;
    if f(k, v) {
      assert after == before + {k};
    } else {
      assert after == before;
    }
  }

  // A change that plain mode accepted is rejected when it comes again, whatever is cached by then, if and only if
  // it inserted a row into a table with a primary key, or into one without whose constraints forbid the duplicate.
  lemma PlainReplayIff(target: Target, cache: map<string, seq<string>>, cache': map<string, seq<string>>, c: Change,
                       db: DB)
    requires ApplyAll(target, cache, [c], false, None, db).result.Ok?
    ensures var after := ApplyAll(target, cache, [c], false, None, db).result.value.0;
            var table := TargetTable(target.mappings, c);
            ApplyAll(target, cache', [c], false, None, after).result.Err?
            <==> Inserts(c) && (Keyed(target, table) || !target.constraints(WithRow(after, table, c.rowData.value)))
  {
    OneChangeBatch(target, cache, c, false, db);
    var after := ApplyAll(target, cache, [c], false, None, db).result.value.0;
    OneChangeBatch(target, cache', c, false, after);
    if c.operation == Delete && c.primaryKey.value != map[] {
      var table := TargetTable(target.mappings, c);
      assert after - Selected(after, table, c.primaryKey.value) == after;
    }
  }

  lemma FewerRows(db: DB, selected: set<Key>)
    requires selected <= db.Keys
    ensures |selected| == |db.Keys| - |(db - selected).Keys|
  {
    assert (db - selected).Keys == db.Keys - selected;
  }

  // The rows a change affects: one for an insert, as many as there are fewer afterwards for a delete.
  lemma PlainAffects(target: Target, cache: map<string, seq<string>>, c: Change, db: DB, after: DB, count: nat)
    requires ApplyChange(target, cache, c, false, Never, db).result == Ok((after, count))
    ensures if c.operation == Delete then count == |db.Keys| - |after.Keys| else count == if Inserts(c) then 1 else 0
  {
    if c.operation == Delete {
      if c.primaryKey.value != map[] {
        FewerRows(db, Selected(db, TargetTable(target.mappings, c), c.primaryKey.value));
      }
    } else if Inserts(c) {
      assert InsertRow(target, TargetTable(target.mappings, c), c.rowData.value, db) == Ok((after, count));
    }
  }

  // One more row of a table without a primary key.
  function WithRow(db: DB, table: string, row: Row): DB {
    db[FreshKey(db, table, 0) := row]
  }

  lemma WithRowCopies(db: DB, table: string, row: Row, other: string, r: Row)
    ensures Copies(WithRow(db, table, row), other, r)
            == Copies(db, other, r) + if other == table && r == row then 1 else 0
  {
    MatchingNew(db, (key: Key, x: Row) => key.table == other && x == r, FreshKey(db, table, 0), row);
  }

  // Redelivered to a table without a primary key, an accepted insert is there twice if it is accepted again.
  lemma KeylessReplayDuplicates(target: Target, cache: map<string, seq<string>>, cache': map<string, seq<string>>,
                                c: Change, db: DB)
    requires Inserts(c) && !Keyed(target, TargetTable(target.mappings, c))
    requires ApplyAll(target, cache, [c], false, None, db).result.Ok?
    ensures var table, row := TargetTable(target.mappings, c), c.rowData.value;
            var after := ApplyAll(target, cache, [c], false, None, db).result.value.0;
            var again := ApplyAll(target, cache', [c], false, None, after).result;
            && Copies(after, table, row) == Copies(db, table, row) + 1
            && (again.Ok? ==> Copies(again.value.0, table, row) == Copies(db, table, row) + 2)
  {
    var table, row := TargetTable(target.mappings, c), c.rowData.value;
    OneChangeBatch(target, cache, c, false, db);
    var after := ApplyAll(target, cache, [c], false, None, db).result.value.0;
    OneChangeBatch(target, cache', c, false, after);
    WithRowCopies(db, table, row, table, row);
    WithRowCopies(after, table, row, table, row);
  }

  // ---------- one key ----------

  // Whether some writes of a key can be run one after the other: a put needs the key to be free.
  predicate PlainOk(ops: seq<CellOp>, c: Cell) {
    ops == [] || ((ops[0].Put? ==> c.None?) && PlainOk(ops[1..], StepCell(ops[0], c)))
  }

  lemma {:induction false} PlainOkConcat(a: seq<CellOp>, b: seq<CellOp>, c: Cell)
    ensures PlainOk(a + b, c) <==> PlainOk(a, c) && PlainOk(b, RunCell(a, c))
  {
    if a == [] {
      assert a + b == b;
    } else {
      assert (a + b)[1..] == a[1..] + b;
      PlainOkConcat(a[1..], b, StepCell(a[0], c));
    }
  }

  // Then the key holds what was written last.
  lemma {:induction false} PlainLast(ops: seq<CellOp>, c: Cell)
    requires PlainOk(ops, c) && ops != []
    ensures RunCell(ops, c) == Written(ops[|ops| - 1])
  {
    if |ops| == 1 {
      assert ops[1..] == [];
    } else {
      PlainLast(ops[1..], StepCell(ops[0], c));
    }
  }

  predicate PutsAtBothEnds(ops: seq<CellOp>) {
    ops != [] && ops[0].Put? && ops[|ops| - 1].Put?
  }

  lemma PlainAgainCell(ops: seq<CellOp>, c: Cell)
    requires PlainOk(ops, c)
    ensures PlainOk(ops, RunCell(ops, c)) <==> !PutsAtBothEnds(ops)
    ensures !PutsAtBothEnds(ops) ==> RunCell(ops, RunCell(ops, c)) == RunCell(ops, c)
  {
    if ops != [] {
      PlainLast(ops, c);
      if !PutsAtBothEnds(ops) { PlainLast(ops, RunCell(ops, c)); }
    }
  }

  // ---------- a batch ----------

  // Whether a change's statement can succeed on a table that has nothing of its key.
  predicate PlainStatementOk(target: Target, c: Change) {
    var table := TargetTable(target.mappings, c);
    match c.operation
    case UpdateOld | Unspecified => true
    case Insert | UpdateNew =>
      c.rowData.Some? && (c.rowData.value == map[] || InsertRow(target, table, c.rowData.value, map[]).Ok?)
    case Delete =>
      c.primaryKey.Some? && (c.primaryKey.value == map[] || DeleteRows(target, table, c.primaryKey.value, map[]).Ok?)
  }

  // The writes to tables with a primary key.
  function KeyedWrites(target: Target, ws: seq<Write>): seq<Write> {
    Filter((w: Write) => Keyed(target, w.key.table), ws)
  }

  lemma {:induction false} OnKeyed(target: Target, ws: seq<Write>, key: Key)
    ensures On(KeyedWrites(target, ws), key) == if Keyed(target, key.table) then On(ws, key) else []
  {
    if ws != [] {
      OnKeyed(target, ws[1..], key);
      var kept := KeyedWrites(target, ws[1..]);
      assert ([ws[0]] + kept)[1..] == kept;
    }
  }

  ghost predicate PlainWritesOk(target: Target, ws: seq<Write>, db: DB) {
    forall key: Key :: Keyed(target, key.table) ==> PlainOk(On(ws, key), Lookup(db, key))
  }

  // What an accepted change leaves: its write done, or one more row where there is no primary key.
  function FileOne(target: Target, c: Change, db: DB): DB {
    var table := TargetTable(target.mappings, c);
    if Inserts(c) && !Keyed(target, table) then WithRow(db, table, c.rowData.value)
    else Apply(ChangeWrites(target.mappings, c), db)
  }

  function FileAll(target: Target, changes: seq<Change>, db: DB): DB {
    if changes == [] then db
    else FileOne(target, changes[|changes| - 1], FileAll(target, changes[..|changes| - 1], db))
  }

  // How often some changes insert a row into a table.
  function Inserted(target: Target, changes: seq<Change>, table: string, row: Row): nat {
    if changes == [] then 0
    else
      var c := changes[|changes| - 1];
      Inserted(target, changes[..|changes| - 1], table, row)
      + if Inserts(c) && TargetTable(target.mappings, c) == table && c.rowData.value == row then 1 else 0
  }

  lemma OneWrite(target: Target, w: Write, db: DB)
    requires Keyed(target, w.key.table)
    ensures PlainWritesOk(target, [w], db) <==> (w.op.Put? ==> w.key !in db)
    ensures Apply([w], db) == ApplyOne(w, db)
  {
    assert [w][1..] == [] && [w.op][1..] == [];
    forall key: Key
      ensures PlainOk(On([w], key), Lookup(db, key)) <==> (key == w.key && w.op.Put? ==> w.key !in db)
    {
      assert On([w], key) == if key == w.key then [w.op] else [];
    }
    assert PlainOk(On([w], w.key), Lookup(db, w.key)) <==> (w.op.Put? ==> w.key !in db);
  }

  lemma PlainInsert(target: Target, c: Change, db: DB)
    requires KeyedDb(target, db) && SameKey(target, c) && Inserts(c)
    ensures var table, w := TargetTable(target.mappings, c), ChangeWrites(target.mappings, c)[0];
            var r := InsertRow(target, table, c.rowData.value, db);
            && (r.Ok? <==> PlainStatementOk(target, c) && (Keyed(target, table) ==> w.key !in db))
            && (r.Ok? ==> r.value.0 == FileOne(target, c, db) && KeyedDb(target, r.value.0))
  {
    var table, w := TargetTable(target.mappings, c), ChangeWrites(target.mappings, c)[0];
    assert [w][1..] == [] && Apply([w], db) == ApplyOne(w, db);
    if InsertRow(target, table, c.rowData.value, db).Ok? {
      PutKeepsKeyed(target, db, table, c.rowData.value);
    }
  }

  lemma PlainDelete(target: Target, c: Change, db: DB)
    requires KeyedDb(target, db) && SameKey(target, c) && c.operation == Delete && c.primaryKey.value != map[]
    ensures var table := TargetTable(target.mappings, c);
            var r := DeleteRows(target, table, c.primaryKey.value, db);
            && (r.Ok? <==> PlainStatementOk(target, c)) && (r.Ok? ==> Keyed(target, table))
            && (r.Ok? ==> r.value.0 == FileOne(target, c, db) && KeyedDb(target, r.value.0))
  {
    var table, w := TargetTable(target.mappings, c), ChangeWrites(target.mappings, c)[0];
    assert [w][1..] == [] && Apply([w], db) == ApplyOne(w, db);
    if table in target.catalog {
      DeleteByKey(target, db, table, c.primaryKey.value);
      NamedKey(target.catalog[table].primaryKey, c.primaryKey.value.Keys);
    }
  }

  lemma PlainChangeIff(target: Target, cache: map<string, seq<string>>, c: Change, db: DB)
    requires KeyedDb(target, db) && SameKey(target, c)
    ensures var a := ApplyChange(target, cache, c, false, Never, db);
            && (a.result.Ok?
                <==> PlainStatementOk(target, c) && PlainWritesOk(target, ChangeWrites(target.mappings, c), db))
            && (a.result.Ok? ==> a.result.value.0 == FileOne(target, c, db) && KeyedDb(target, FileOne(target, c, db)))
  {
    var ws := ChangeWrites(target.mappings, c);
    if ws != [] {
      assert ws == [ws[0]];
      if c.operation == Delete { PlainDelete(target, c, db); } else { PlainInsert(target, c, db); }
      if Keyed(target, ws[0].key.table) {
        OneWrite(target, ws[0], db);
      } else {
        forall key: Key | Keyed(target, key.table)
          ensures On(ws, key) == []
        {
          assert ws[1..] == [];
        }
      }
    }
  }

  // On the keys of tables with a primary key, filing a change does what its write does.
  lemma FileKey(target: Target, c: Change, db: DB, key: Key)
    requires Keyed(target, key.table)
    ensures Lookup(FileOne(target, c, db), key) == RunCell(On(ChangeWrites(target.mappings, c), key), Lookup(db, key))
  {
    Pointwise(ChangeWrites(target.mappings, c), db, key);
    var ws := ChangeWrites(target.mappings, c);
    if Inserts(c) && !Keyed(target, TargetTable(target.mappings, c)) && ws != [] {
      assert ws == [ws[0]] && ws[1..] == [];
    }
  }

  lemma {:induction false} FileAllKey(target: Target, changes: seq<Change>, db: DB, key: Key)
    requires Keyed(target, key.table)
    ensures Lookup(FileAll(target, changes, db), key)
            == RunCell(On(BatchWrites(target.mappings, changes), key), Lookup(db, key))
  {
    if changes != [] {
      var n := |changes| - 1;
      FileAllKey(target, changes[..n], db, key);
      FileKey(target, changes[n], FileAll(target, changes[..n], db), key);
      OnExtended(target.mappings, changes, n, key);
      RunCellConcat(On(BatchWrites(target.mappings, changes[..n]), key),
                    On(ChangeWrites(target.mappings, changes[n]), key), Lookup(db, key));
      assert changes[..n + 1] == changes;
    }
  }

  lemma WritesOfOne(mappings: seq<SchemaMapping>, c: Change)
    ensures BatchWrites(mappings, [c]) == ChangeWrites(mappings, c)
  {
    assert BatchWrites(mappings, [c][1..]) == [];
  }

  lemma OnExtended(mappings: seq<SchemaMapping>, changes: seq<Change>, i: nat, key: Key)
    requires i < |changes|
    ensures On(BatchWrites(mappings, changes[..i + 1]), key)
            == On(BatchWrites(mappings, changes[..i]), key) + On(ChangeWrites(mappings, changes[i]), key)
  {
    var done, c := changes[..i], changes[i];
    assert changes[..i + 1] == done + [c];
    BatchWritesConcat(mappings, done, [c]);
    WritesOfOne(mappings, c);
    OnConcat(BatchWrites(mappings, done), ChangeWrites(mappings, c), key);
  }

  // And of a table without one, every insert adds its row.
  lemma {:induction false} FileAllCopies(target: Target, changes: seq<Change>, db: DB, table: string, row: Row)
    requires !Keyed(target, table)
    requires forall c :: c in changes ==> SameKey(target, c) && PlainStatementOk(target, c)
    ensures Copies(FileAll(target, changes, db), table, row)
            == Copies(db, table, row) + Inserted(target, changes, table, row)
  {
    if changes != [] {
      var n := |changes| - 1;
      var before := FileAll(target, changes[..n], db);
      assert changes[n] in changes;
      FileAllCopies(target, changes[..n], db, table, row);
      FileCopies(target, changes[n], before, table, row);
    }
  }

  lemma FileCopies(target: Target, c: Change, db: DB, table: string, row: Row)
    requires !Keyed(target, table) && SameKey(target, c) && PlainStatementOk(target, c)
    ensures Copies(FileOne(target, c, db), table, row) == Copies(db, table, row) + Inserted(target, [c], table, row)
  {
    var ws, t := ChangeWrites(target.mappings, c), TargetTable(target.mappings, c);
    assert [c][..0] == [];
    if Inserts(c) && !Keyed(target, t) {
      WithRowCopies(db, t, c.rowData.value, table, row);
    } else if ws != [] {
      assert ws == [ws[0]] && ws[1..] == [] && Apply(ws, db) == ApplyOne(ws[0], db);
      if c.operation == Delete { NamedKey(target.catalog[t].primaryKey, c.primaryKey.value.Keys); }
      OtherTable(ws[0], db, table, row);
    }
  }

  lemma OtherTable(w: Write, db: DB, table: string, row: Row)
    requires w.key.table != table
    ensures Copies(ApplyOne(w, db), table, row) == Copies(db, table, row)
  {
    var f := (key: Key, r: Row) => key.table == table && r == row;
    assert Matching(ApplyOne(w, db), f) == Matching(db, f);
  }

  predicate StatementsOk(target: Target, changes: seq<Change>, n: nat)
    requires n <= |changes|
  {
    forall i :: 0 <= i < n ==> PlainStatementOk(target, changes[i])
  }

  // What holds of the first n changes of a batch.
  ghost predicate PlainUpTo(target: Target, a: Applied, changes: seq<Change>, n: nat, db: DB)
    requires n <= |changes|
  {
    var after := FileAll(target, changes[..n], db);
    && (a.result.Ok?
        <==> StatementsOk(target, changes, n) && PlainWritesOk(target, BatchWrites(target.mappings, changes[..n]), db))
    && (a.result.Ok? ==> a.result.value.0 == after && KeyedDb(target, after))
  }

  lemma PlainExtend(target: Target, changes: seq<Change>, i: nat, db: DB)
    requires i < |changes|
    ensures FileAll(target, changes[..i + 1], db) == FileOne(target, changes[i], FileAll(target, changes[..i], db))
    ensures PlainWritesOk(target, BatchWrites(target.mappings, changes[..i + 1]), db)
            <==> && PlainWritesOk(target, BatchWrites(target.mappings, changes[..i]), db)
                 && PlainWritesOk(target, ChangeWrites(target.mappings, changes[i]), FileAll(target, changes[..i], db))
  {
    assert changes[..i + 1][..i] == changes[..i];
    var before, ws := BatchWrites(target.mappings, changes[..i]), ChangeWrites(target.mappings, changes[i]);
    forall key: Key | Keyed(target, key.table)
      ensures PlainOk(On(BatchWrites(target.mappings, changes[..i + 1]), key), Lookup(db, key))
              <==> && PlainOk(On(before, key), Lookup(db, key))
                   && PlainOk(On(ws, key), Lookup(FileAll(target, changes[..i], db), key))
    {
      OnExtended(target.mappings, changes, i, key);
      PlainOkConcat(On(before, key), On(ws, key), Lookup(db, key));
      FileAllKey(target, changes[..i], db, key);
    }
  }

  lemma PlainNext(target: Target, a: Applied, b: Applied, step: Applied, changes: seq<Change>, i: nat, db: DB)
    requires i < |changes| && SameKey(target, changes[i]) && PlainUpTo(target, a, changes, i, db) && a.result.Ok?
    requires step == ApplyChange(target, a.cache, changes[i], false, Never, a.result.value.0)
    requires b.result.Ok? <==> step.result.Ok?
    requires b.result.Ok? ==> b.result.value.0 == step.result.value.0
    ensures PlainUpTo(target, b, changes, i + 1, db)
  {
    PlainExtend(target, changes, i, db);
    PlainChangeIff(target, a.cache, changes[i], a.result.value.0);
  }

  lemma PlainStops(target: Target, a: Applied, changes: seq<Change>, i: nat, db: DB)
    requires i < |changes| && PlainUpTo(target, a, changes, i, db) && a.result.Err?
    ensures PlainUpTo(target, a, changes, i + 1, db)
  {
    PlainExtend(target, changes, i, db);
  }

  lemma {:induction false} PlainUpToIff(target: Target, cache: map<string, seq<string>>, changes: seq<Change>, n: nat,
                                        db: DB)
    requires n <= |changes| && KeyedDb(target, db) && forall c :: c in changes ==> SameKey(target, c)
    ensures PlainUpTo(target, ApplyUpTo(target, cache, changes, n, false, None, db), changes, n, db)
  {
    if n == 0 {
      assert changes[..0] == [];
    } else {
      var i := n - 1;
      PlainUpToIff(target, cache, changes, i, db);
      var a := ApplyUpTo(target, cache, changes, i, false, None, db);
      if a.result.Ok? {
        var step := ApplyChange(target, a.cache, changes[i], false, Never, a.result.value.0);
        UpToStep(target, cache, changes, i, false, None, db, a, step);
        PlainNext(target, a, ApplyUpTo(target, cache, changes, n, false, None, db), step, changes, i, db);
      } else {
        ErrorStep(target, cache, changes, i, false, None, db, a);
        PlainStops(target, a, changes, i, db);
      }
    }
  }

  // Plain mode accepts a batch if and only if each of its statements can succeed, no put finds its key taken in a
  // table with a primary key, and the constraints hold at the end.
  lemma PlainAcceptedIff(target: Target, cache: map<string, seq<string>>, changes: seq<Change>, db: DB)
    requires KeyedDb(target, db) && forall c :: c in changes ==> SameKey(target, c)
    ensures var a := ApplyAll(target, cache, changes, false, None, db);
            var ws, after := BatchWrites(target.mappings, changes), FileAll(target, changes, db);
            && (a.result.Ok? <==> && StatementsOk(target, changes, |changes|)
                                  && PlainWritesOk(target, ws, db) && target.constraints(after))
            && (a.result.Ok? ==> a.result.value.0 == after && KeyedDb(target, after))
  {
    PlainUpToIff(target, cache, changes, |changes|, db);
    assert changes[..|changes|] == changes;
  }

  // Of some key the first and the last write are both puts.
  ghost predicate PutsAgain(ws: seq<Write>) {
    exists key :: PutsAtBothEnds(On(ws, key))
  }

  lemma PlainAgainKey(target: Target, changes: seq<Change>, db: DB, key: Key)
    requires Keyed(target, key.table) && PlainOk(On(BatchWrites(target.mappings, changes), key), Lookup(db, key))
    ensures var ws, after := BatchWrites(target.mappings, changes), FileAll(target, changes, db);
            && (PlainOk(On(ws, key), Lookup(after, key)) <==> !PutsAtBothEnds(On(ws, key)))
            && (!PutsAtBothEnds(On(ws, key)) ==> Lookup(FileAll(target, changes, after), key) == Lookup(after, key))
  {
    FileAllKey(target, changes, db, key);
    FileAllKey(target, changes, FileAll(target, changes, db), key);
    PlainAgainCell(On(BatchWrites(target.mappings, changes), key), Lookup(db, key));
  }

  lemma PlainAgain(target: Target, changes: seq<Change>, db: DB)
    requires PlainWritesOk(target, BatchWrites(target.mappings, changes), db)
    ensures var ws, after := BatchWrites(target.mappings, changes), FileAll(target, changes, db);
            && (PlainWritesOk(target, ws, after) <==> !PutsAgain(KeyedWrites(target, ws)))
            && (PlainWritesOk(target, ws, after) ==> SameKeyed(target, FileAll(target, changes, after), after))
  {
    var ws, after := BatchWrites(target.mappings, changes), FileAll(target, changes, db);
    if PutsAgain(KeyedWrites(target, ws)) {
      var key :| PutsAtBothEnds(On(KeyedWrites(target, ws), key));
      OnKeyed(target, ws, key);
      PlainAgainKey(target, changes, db, key);
    } else {
      forall key: Key | Keyed(target, key.table)
        ensures PlainOk(On(ws, key), Lookup(after, key))
        ensures Lookup(FileAll(target, changes, after), key) == Lookup(after, key)
      {
        OnKeyed(target, ws, key);
        assert !PutsAtBothEnds(On(KeyedWrites(target, ws), key));
        PlainAgainKey(target, changes, db, key);
      }
    }
  }

  // Two databases agree on the tables with a primary key.
  ghost predicate SameKeyed(target: Target, a: DB, b: DB) {
    forall key: Key :: Keyed(target, key.table) ==> Lookup(a, key) == Lookup(b, key)
  }

  // A batch that plain mode accepted is rejected when it comes again if and only if for some key of a table with
  // a primary key its first and its last write are both puts, or the constraints forbid what it would leave. If
  // it is accepted, it changes nothing in tables with a primary key, and every row it inserted into another one
  // is there once more.
  lemma PlainBatchReplayIff(target: Target, cache: map<string, seq<string>>, cache': map<string, seq<string>>,
                            changes: seq<Change>, db: DB)
    requires KeyedDb(target, db) && forall c :: c in changes ==> SameKey(target, c)
    requires ApplyAll(target, cache, changes, false, None, db).result.Ok?
    ensures var after := ApplyAll(target, cache, changes, false, None, db).result.value.0;
            var again := ApplyAll(target, cache', changes, false, None, after).result;
            && (again.Err? <==> || PutsAgain(KeyedWrites(target, BatchWrites(target.mappings, changes)))
                                || !target.constraints(FileAll(target, changes, after)))
            && (again.Ok? ==> && SameKeyed(target, again.value.0, after)
                              && forall table, row :: !Keyed(target, table) ==>
                                   Copies(again.value.0, table, row)
                                   == Copies(after, table, row) + Inserted(target, changes, table, row))
  {
    PlainAcceptedIff(target, cache, changes, db);
    var after := FileAll(target, changes, db);
    PlainAcceptedIff(target, cache', changes, after);
    PlainAgain(target, changes, db);
    forall table, row | !Keyed(target, table)
      ensures Copies(FileAll(target, changes, after), table, row)
              == Copies(after, table, row) + Inserted(target, changes, table, row)
    {
      FileAllCopies(target, changes, after, table, row);
    }
  }

  lemma OneMore(target: Target, changes: seq<Change>)
    requires changes != []
    ensures var n := |changes| - 1;
            BatchWrites(target.mappings, changes)
            == BatchWrites(target.mappings, changes[..n]) + ChangeWrites(target.mappings, changes[n])
  {
    var n := |changes| - 1;
    assert changes == changes[..n] + [changes[n]];
    BatchWritesConcat(target.mappings, changes[..n], [changes[n]]);
    WritesOfOne(target.mappings, changes[n]);
  }

  lemma {:induction false} AllKeyedWrites(target: Target, changes: seq<Change>)
    requires forall c :: c in changes ==> ChangeKeyed(target, c)
    ensures KeyedWrites(target, BatchWrites(target.mappings, changes)) == BatchWrites(target.mappings, changes)
  {
    if changes != [] {
      var n := |changes| - 1;
      var f, ws := (w: Write) => Keyed(target, w.key.table), ChangeWrites(target.mappings, changes[n]);
      assert changes[n] in changes;
      AllKeyedWrites(target, changes[..n]);
      OneMore(target, changes);
      FilterConcat(f, BatchWrites(target.mappings, changes[..n]), ws);
      FilterAll(f, ws);
    }
  }

  lemma {:induction false} AllKeyedFile(target: Target, changes: seq<Change>, db: DB)
    requires forall c :: c in changes ==> ChangeKeyed(target, c)
    ensures FileAll(target, changes, db) == Apply(BatchWrites(target.mappings, changes), db)
  {
    if changes != [] {
      var n := |changes| - 1;
      assert changes[n] in changes;
      AllKeyedFile(target, changes[..n], db);
      OneMore(target, changes);
      ApplyConcat(BatchWrites(target.mappings, changes[..n]), ChangeWrites(target.mappings, changes[n]), db);
    }
  }

  // A change that writes to tables with a primary key only.
  predicate ChangeKeyed(target: Target, c: Change) {
    ChangeWrites(target.mappings, c) != [] || Inserts(c) ==> Keyed(target, TargetTable(target.mappings, c))
  }

  // With keys everywhere the constraints need no second look: the redelivery leaves what was there.
  lemma PlainKeyedReplayIff(target: Target, cache: map<string, seq<string>>, cache': map<string, seq<string>>,
                            changes: seq<Change>, db: DB)
    requires KeyedDb(target, db) && forall c :: c in changes ==> SameKey(target, c)
    requires forall c :: c in changes ==> ChangeKeyed(target, c)
    requires ApplyAll(target, cache, changes, false, None, db).result.Ok?
    ensures var after := ApplyAll(target, cache, changes, false, None, db).result.value.0;
            var again := ApplyAll(target, cache', changes, false, None, after).result;
            && (again.Err? <==> PutsAgain(BatchWrites(target.mappings, changes)))
            && (again.Ok? ==> again.value.0 == after)
  {
    var ws, after := BatchWrites(target.mappings, changes), FileAll(target, changes, db);
    PlainAcceptedIff(target, cache, changes, db);
    PlainAcceptedIff(target, cache', changes, after);
    PlainAgain(target, changes, db);
    AllKeyedWrites(target, changes);
    AllKeyedFile(target, changes, db);
    AllKeyedFile(target, changes, after);
    if PlainWritesOk(target, ws, after) {
      forall key: Key
        ensures Lookup(FileAll(target, changes, after), key) == Lookup(after, key)
      {
        Pointwise(ws, after, key);
        OnKeyed(target, ws, key);
      }
      SameCellsSameDb(FileAll(target, changes, after), after);
    }
  }
}
