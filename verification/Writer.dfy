// The PostgreSQL writer: SQL statements built from change requests and run in one transaction.
module Writer {
  import opened Common
  import opened Replica
  import opened Mapping
  import opened Changes

  // ---------- the target database, as far as the statements can see it ----------

  datatype TableDef = TableDef(primaryKey: seq<string>, columns: set<string>)

  // The target: its tables, the writer's schema overrides, and the deferrable constraints that are
  // checked when a transaction commits.
  datatype Target = Target(catalog: map<string, TableDef>, mappings: seq<SchemaMapping>, constraints: DB -> bool)

  datatype Sql =
    | InsertInto(table: string, columns: seq<string>, values: seq<Val>)
    | InsertOrUpdate(table: string, columns: seq<string>, values: seq<Val>, conflict: seq<string>, updates: seq<string>)
    | DeleteFrom(table: string, columns: seq<string>, values: seq<Val>)

  // The column list of a statement with its values.
  function Zip(columns: seq<string>, values: seq<Val>): Row
    requires |columns| == |values|
  {
    if columns == [] then map[]
    else Zip(columns[..|columns| - 1], values[..|columns| - 1])[columns[|columns| - 1] := values[|columns| - 1]]
  }

  predicate WellFormedSql(sql: Sql) {
    |sql.columns| == |sql.values|
  }

  // A row fits a table if its columns exist and its key is complete.
  predicate Fits(def: TableDef, row: Row) {
    row.Keys <= def.columns && Names(def.primaryKey) <= row.Keys
  }

  predicate Meets(row: Row, condition: Row) {
    forall col :: col in condition ==> col in row && row[col] == condition[col]
  }

  // The keys whose rows a WHERE clause of equalities selects.
  function Selected(db: DB, table: string, condition: Row): set<Key> {
    set key | key in db && key.table == table && Meets(db[key], condition)
  }

  // The rows of a table without a primary key are told apart by a hidden identifier, here of a given length.
  function Hidden(table: string, n: nat): Key {
    Key(table, map["ctid" := seq(n, _ => '0')])
  }

  ghost function HiddenFrom(db: DB, table: string, n: nat): set<Key> {
    set key | key in db && key.table == table && "ctid" in key.pk && |key.pk["ctid"]| >= n
  }

  function FreshKey(db: DB, table: string, n: nat): (key: Key)
    ensures key !in db && key.table == table
    decreases HiddenFrom(db, table, n)
  {
    if Hidden(table, n) !in db then Hidden(table, n)
    else
      assert Hidden(table, n) in HiddenFrom(db, table, n) && Hidden(table, n) !in HiddenFrom(db, table, n + 1);
      FreshKey(db, table, n + 1)
  }

  // Where a table files a new row: under its primary key, or apart from all others if it has none.
  function RowKey(def: TableDef, table: string, row: Row, db: DB): Key {
    if def.primaryKey == [] then FreshKey(db, table, 0) else Key(table, Project(row, Names(def.primaryKey)))
  }

  // What a statement does: the new content and the number of rows affected, or an error.
  function Execute(target: Target, sql: Sql, db: DB): Result<(DB, nat), ()>
    requires WellFormedSql(sql)
  {
    if sql.table !in target.catalog then Err(())
    else
      var def, row := target.catalog[sql.table], Zip(sql.columns, sql.values);
      match sql
      case InsertInto(table, _, _) =>
        var key := RowKey(def, table, row, db);
        if !Fits(def, row) || key in db then Err(()) else Ok((db[key := row], 1))
      case InsertOrUpdate(table, _, _, conflict, updates) =>
        var key := Key(table, Project(row, Names(def.primaryKey)));
        if !Fits(def, row) || conflict == [] || Names(conflict) != Names(def.primaryKey) then Err(())
        else if key !in db then Ok((db[key := row], 1))
        else if updates == [] then Ok((db, 0))
        else Ok((db[key := db[key] + Project(row, Names(updates))], 1))
      case DeleteFrom(table, _, _) =>
        if !(row.Keys <= def.columns) then Err(())
        else
          var selected := Selected(db, table, row);
          Ok((db - selected, |selected|))
  }

  // ---------- what a change asks for ----------

  // How the database connections fail one change: not at all, at its catalog query, or at its statement.
  datatype Drops = Never | AtLookup | AtStatement

  // The change of a batch at which a connection fails, and whether that happens at its catalog query already.
  datatype Failure = Failure(at: nat, inLookup: bool)

  function DropsAt(failAt: Option<Failure>, i: nat): Drops {
    if failAt.None? || failAt.value.at != i then Never else if failAt.value.inLookup then AtLookup else AtStatement
  }

  // Cached columns if there are any, else the change's own metadata, else the catalog, if it can be asked.
  function PkColumns(target: Target, cache: map<string, seq<string>>, c: Change, lookupFails: bool)
    : (Option<seq<string>>, map<string, seq<string>>)
  {
    var key := Dotted(c.schemaName, c.tableName);
    if key in cache then (Some(cache[key]), cache)
    else if KeyNames(c.columns) != [] then (Some(KeyNames(c.columns)), cache[key := KeyNames(c.columns)])
    else
      var table := TargetTable(target.mappings, c);
      if table in target.catalog && !lookupFails
      then (Some(target.catalog[table].primaryKey), cache[key := target.catalog[table].primaryKey])
      else (None, cache)
  }

  // What a lookup of a change's key columns may answer, and what it may leave in the cache.
  predicate KeyAnswer(target: Target, cache: map<string, seq<string>>, c: Change, lookupFails: bool,
                      columns: Option<seq<string>>, cache': map<string, seq<string>>) {
    var cacheKey := c.schemaName + "." + c.tableName;
    var table := MapSchema(target.mappings, c.schemaName) + "." + c.tableName;
    && (cacheKey in cache ==> columns == Some(cache[cacheKey]))
    && (cacheKey !in cache && KeyNames(c.columns) != [] ==> columns == Some(KeyNames(c.columns)))
    && (cacheKey !in cache && KeyNames(c.columns) == [] ==>
          columns == if lookupFails || table !in target.catalog then None else Some(target.catalog[table].primaryKey))
    && cache' == if columns.Some? then cache[cacheKey := columns.value] else cache
  }

  // Insert the row, or merge its other columns into the row that has its key.
  function MergeRow(target: Target, table: string, pk: seq<string>, row: Row, db: DB): Result<(DB, nat), ()> {
    if table !in target.catalog || !Fits(target.catalog[table], row) then Err(())
    else if pk == [] || Names(pk) != Names(target.catalog[table].primaryKey) then Err(())
    else
      var key := Key(table, Project(row, Names(pk)));
      if key !in db then Ok((db[key := row], 1))
      else if row.Keys <= Names(pk) then Ok((db, 0))
      else Ok((db[key := db[key] + (row - Names(pk))], 1))
  }

  function InsertRow(target: Target, table: string, row: Row, db: DB): Result<(DB, nat), ()> {
    if table !in target.catalog || !Fits(target.catalog[table], row) then Err(())
    else
      var key := RowKey(target.catalog[table], table, row, db);
      if key in db then Err(()) else Ok((db[key := row], 1))
  }

  function DeleteRows(target: Target, table: string, condition: Row, db: DB): Result<(DB, nat), ()> {
    if table !in target.catalog || !(condition.Keys <= target.catalog[table].columns) then Err(())
    else
      var selected := Selected(db, table, condition);
      Ok((db - selected, |selected|))
  }

  lemma {:induction false} ZipContents(columns: seq<string>, values: seq<Val>, row: Row)
    requires |columns| == |values|
    requires forall i :: 0 <= i < |columns| ==> columns[i] in row && row[columns[i]] == values[i]
    ensures Zip(columns, values) == Project(row, Names(columns))
  {
    if columns != [] {
      var n := |columns| - 1;
      ZipContents(columns[..n], values[..n], row);
      assert columns == columns[..n] + [columns[n]];
      assert Names(columns) == Names(columns[..n]) + {columns[n]};
    }
  }

  lemma ZipIsRow(columns: seq<string>, values: seq<Val>, row: Row)
    requires |columns| == |values| && Names(columns) == row.Keys
    requires forall i :: 0 <= i < |columns| ==> columns[i] in row && row[columns[i]] == values[i]
    ensures Zip(columns, values) == row
  {
    ZipContents(columns, values, row);
  }

  // ---------- a transaction ----------

  class Transaction {
    const target: Target
    var db: DB

    constructor (target: Target, db: DB)
      ensures this.target == target && this.db == db
    {
      this.target, this.db := target, db;
    }

    // A statement that fails, by itself or because the connection drops, changes nothing.
    method Exec(sql: Sql, drops: bool) returns (r: Result<nat, ()>)
      requires WellFormedSql(sql)
      modifies this`db
      ensures var e := Execute(target, sql, old(db));
              if drops || e.Err? then r.Err? && db == old(db) else r == Ok(e.value.1) && db == e.value.0
    {
      var e := Execute(target, sql, db);
      if drops || e.Err? {
        r := Err(());
      } else {
        db := e.value.0;
        r := Ok(e.value.1);
      }
    }
  }

  // ---------- a whole batch ----------

  // The writer's cache and the transaction's content and row count after some changes.
  datatype Applied = Applied(cache: map<string, seq<string>>, result: Result<(DB, nat), ()>)

  // One change, and where a connection fails it.
  function ApplyChange(target: Target, cache: map<string, seq<string>>, c: Change, idempotent: bool, drops: Drops,
                       db: DB): Applied {
    var table := TargetTable(target.mappings, c);
    match c.operation
    case UpdateOld | Unspecified => Applied(cache, Ok((db, 0)))
    case Insert | UpdateNew =>
      if idempotent then
        var (pk, cache') := PkColumns(target, cache, c, drops.AtLookup?);
        if pk.None? || c.rowData.None? then Applied(cache', Err(()))
        else if c.rowData.value == map[] then Applied(cache', Ok((db, 0)))
        else if drops.AtStatement? then Applied(cache', Err(()))
        else Applied(cache', MergeRow(target, table, pk.value, c.rowData.value, db))
      else if c.rowData.None? then Applied(cache, Err(()))
      else if c.rowData.value == map[] then Applied(cache, Ok((db, 0)))
      else if drops.AtStatement? then Applied(cache, Err(()))
      else Applied(cache, InsertRow(target, table, c.rowData.value, db))
    case Delete =>
      if c.primaryKey.None? then Applied(cache, Err(()))
      else if c.primaryKey.value == map[] then Applied(cache, Ok((db, 0)))
      else if drops.AtStatement? then Applied(cache, Err(()))
      else Applied(cache, DeleteRows(target, table, c.primaryKey.value, db))
  }

  // The first n changes, stopping at the first error.
  function ApplyUpTo(target: Target, cache: map<string, seq<string>>, changes: seq<Change>, n: nat, idempotent: bool,
                     failAt: Option<Failure>, db: DB): Applied
    requires n <= |changes|
  {
    if n == 0 then Applied(cache, Ok((db, 0)))
    else
      var a := ApplyUpTo(target, cache, changes, n - 1, idempotent, failAt, db);
      if a.result.Err? then a
      else
        var b := ApplyChange(target, a.cache, changes[n - 1], idempotent, DropsAt(failAt, n - 1), a.result.value.0);
        if b.result.Err? then b else Applied(b.cache, Ok((b.result.value.0, a.result.value.1 + b.result.value.1)))
  }

  // All changes and the commit, at which the deferred constraints decide; `failAt` past the last
  // change means that the connection drops at the commit.
  function ApplyAll(target: Target, cache: map<string, seq<string>>, changes: seq<Change>, idempotent: bool,
                    failAt: Option<Failure>, db: DB): Applied {
    var a := ApplyUpTo(target, cache, changes, |changes|, idempotent, failAt, db);
    if a.result.Ok? && ((failAt.Some? && failAt.value.at >= |changes|) || !target.constraints(a.result.value.0))
    then Applied(a.cache, Err(()))
    else a
  }

  class PostgreSQLWriter {
    const target: Target
    var db: DB
    var pkCache: map<string, seq<string>>

    constructor (target: Target, db: DB)
      ensures this.target == target && this.db == db && pkCache == map[]
    {
      this.target, this.db, pkCache := target, db, map[];
    }

    // The columns of a change's primary key; `fails` says that a catalog query, if one is made, fails.
    method GetPrimaryKeyColumns(change: Change, fails: bool) returns (columns: Option<seq<string>>)
      modifies this`pkCache
      ensures (columns, pkCache) == PkColumns(target, old(pkCache), change, fails)
      ensures KeyAnswer(target, old(pkCache), change, fails, columns, pkCache)
    {
      var cacheKey := Dotted(change.schemaName, change.tableName);
      if cacheKey in pkCache {
        return Some(pkCache[cacheKey]);
      }
      var pkFromMetadata := [];
      for i := 0 to |change.columns|
        invariant KeyNames(change.columns) == pkFromMetadata + KeyNames(change.columns[i..])
      {
        if change.columns[i].isPrimaryKey {
          pkFromMetadata := pkFromMetadata + [change.columns[i].name];
        }
        assert change.columns[i..][1..] == change.columns[i + 1..];
      }
      assert change.columns[|change.columns|..] == [] && pkFromMetadata == KeyNames(change.columns);
      if |pkFromMetadata| > 0 {
        pkCache := pkCache[cacheKey := pkFromMetadata];
        return Some(pkFromMetadata);
      }
      var targetTable := Dotted(MapSchema(target.mappings, change.schemaName), change.tableName);
      if fails || targetTable !in target.catalog {
        return None;
      }
      var found := target.catalog[targetTable].primaryKey;
      pkCache := pkCache[cacheKey := found];
      return Some(found);
    }

    // The columns of a row in some order, with their values.
    static method ColumnsOf(row: Row) returns (columns: seq<string>, values: seq<Val>)
      ensures |columns| == |values| && Names(columns) == row.Keys
      ensures Zip(columns, values) == row
    {
      columns, values := [], [];
      var left := row.Keys;
      while left != {}
        invariant left <= row.Keys && |columns| == |values| && Names(columns) == row.Keys - left
        invariant forall i :: 0 <= i < |columns| ==> columns[i] in row && row[columns[i]] == values[i]
        decreases left
      {
        var col :| col in left;
        columns, values := columns + [col], values + [row[col]];
        left := left - {col};
        assert Names(columns) == Names(columns[..|columns| - 1]) + {col};
      }
      ZipIsRow(columns, values, row);
    }

    // Whatever order the columns come in, an upsert merges the row into its key.
    method Upsert(tx: Transaction, change: Change, drops: Drops) returns (r: Result<nat, ()>)
      requires tx.target == target
      modifies tx`db, this`pkCache
      ensures var (pk, cache) := PkColumns(target, old(pkCache), change, drops.AtLookup?);
              var table := TargetTable(target.mappings, change);
              && pkCache == cache
              && (if pk.None? || change.rowData.None? then r.Err? && tx.db == old(tx.db)
                  else if change.rowData.value == map[] then r == Ok(0) && tx.db == old(tx.db)
                  else
                    var e := MergeRow(target, table, pk.value, change.rowData.value, old(tx.db));
                    if drops.AtStatement? || e.Err? then r.Err? && tx.db == old(tx.db)
                    else r == Ok(e.value.1) && tx.db == e.value.0)
    {
      var table := Dotted(MapSchema(target.mappings, change.schemaName), change.tableName);
      var pk := GetPrimaryKeyColumns(change, drops.AtLookup?);
      if pk.None? || change.rowData.None? {
        return Err(());
      }
      var row := change.rowData.value;
      if row == map[] {
        return Ok(0);
      }
      var columns, values := ColumnsOf(row);
      var updateColumns := [];
      for i := 0 to |columns|
        invariant Names(updateColumns) == Names(columns[..i]) - Names(pk.value)
        invariant updateColumns == [] <==> Names(columns[..i]) <= Names(pk.value)
      {
        assert columns[..i + 1] == columns[..i] + [columns[i]];
        assert Names(columns[..i + 1]) == Names(columns[..i]) + {columns[i]};
        if columns[i] !in pk.value {
          updateColumns := updateColumns + [columns[i]];
          assert Names(updateColumns) == Names(updateColumns[..|updateColumns| - 1]) + {columns[i]};
          assert columns[i] in Names(columns[..i + 1]) && columns[i] !in Names(pk.value);
        }
      }
      assert columns[..|columns|] == columns;
      UpsertMerges(target, table, columns, values, pk.value, updateColumns, row, tx.db);
      r := tx.Exec(InsertOrUpdate(table, columns, values, pk.value, updateColumns), drops.AtStatement?);
    }

    method InsertPlain(tx: Transaction, change: Change, drops: bool) returns (r: Result<nat, ()>)
      requires tx.target == target
      modifies tx`db
      ensures var table := TargetTable(target.mappings, change);
              if change.rowData.None? then r.Err? && tx.db == old(tx.db)
              else if change.rowData.value == map[] then r == Ok(0) && tx.db == old(tx.db)
              else
                var e := InsertRow(target, table, change.rowData.value, old(tx.db));
                if drops || e.Err? then r.Err? && tx.db == old(tx.db) else r == Ok(e.value.1) && tx.db == e.value.0
    {
      var table := Dotted(MapSchema(target.mappings, change.schemaName), change.tableName);
      if change.rowData.None? {
        return Err(());
      }
      if change.rowData.value == map[] {
        return Ok(0);
      }
      var columns, values := ColumnsOf(change.rowData.value);
      r := tx.Exec(InsertInto(table, columns, values), drops);
    }

    method Delete(tx: Transaction, change: Change, drops: bool) returns (r: Result<nat, ()>)
      requires tx.target == target
      modifies tx`db
      ensures var table := TargetTable(target.mappings, change);
              if change.primaryKey.None? then r.Err? && tx.db == old(tx.db)
              else if change.primaryKey.value == map[] then r == Ok(0) && tx.db == old(tx.db)
              else
                var e := DeleteRows(target, table, change.primaryKey.value, old(tx.db));
                if drops || e.Err? then r.Err? && tx.db == old(tx.db) else r == Ok(e.value.1) && tx.db == e.value.0
    {
      var table := Dotted(MapSchema(target.mappings, change.schemaName), change.tableName);
      if change.primaryKey.None? {
        return Err(());
      }
      if change.primaryKey.value == map[] {
        return Ok(0);
      }
      var columns, values := ColumnsOf(change.primaryKey.value);
      r := tx.Exec(DeleteFrom(table, columns, values), drops);
    }

    // One change of a batch, by its operation.
    method ApplyToTransaction(tx: Transaction, change: Change, idempotent: bool, drops: Drops)
      returns (r: Result<nat, ()>)
      requires tx.target == target
      modifies tx`db, this`pkCache
      ensures var a := ApplyChange(target, old(pkCache), change, idempotent, drops, old(tx.db));
              && pkCache == a.cache
              && (if a.result.Ok? then r == Ok(a.result.value.1) && tx.db == a.result.value.0
                  else r.Err? && tx.db == old(tx.db))
    {
      match change.operation {
        case UpdateOld => r := Ok(0); // only the after-image is processed
        case Insert | UpdateNew =>
          if idempotent {
            r := Upsert(tx, change, drops);
          } else {
            r := InsertPlain(tx, change, drops.AtStatement?);
          }
        case Delete => r := Delete(tx, change, drops.AtStatement?);
        case Unspecified => r := Ok(0);
      }
    }

    // All or nothing: the batch commits as a whole, or the database keeps its content. `failAt` is
    // where the connection drops, if it does.
    method ApplyChanges(changes: seq<Change>, idempotent: bool, failAt: Option<Failure>) returns (r: Result<nat, ()>)
      modifies this`db, this`pkCache
      ensures var a := ApplyAll(target, old(pkCache), changes, idempotent, failAt, old(db));
              && pkCache == a.cache
              && (if a.result.Ok? then r == Ok(a.result.value.1) && db == a.result.value.0
                  else r.Err? && db == old(db))
    {
      var tx := new Transaction(target, db);
      var rowsAffected: nat := 0;
      ghost var cache0 := pkCache;
      for i := 0 to |changes|
        invariant tx.target == target && fresh(tx) && db == old(db)
        invariant ApplyUpTo(target, cache0, changes, i, idempotent, failAt, db)
                  == Applied(pkCache, Ok((tx.db, rowsAffected)))
      {
        ghost var before := Applied(pkCache, Ok((tx.db, rowsAffected)));
        ghost var step := ApplyChange(target, pkCache, changes[i], idempotent, DropsAt(failAt, i), tx.db);
        UpToStep(target, cache0, changes, i, idempotent, failAt, db, before, step);
        var result := ApplyToTransaction(tx, changes[i], idempotent, DropsAt(failAt, i));
        if result.Err? {
          ErrorStays(target, cache0, changes, i + 1, idempotent, failAt, db, step);
          return Err(());
        }
        assert pkCache == step.cache && tx.db == step.result.value.0 && result.value == step.result.value.1;
        rowsAffected := rowsAffected + result.value;
      }
      if (failAt.Some? && failAt.value.at >= |changes|) || !target.constraints(tx.db) {
        return Err(());
      }
      db := tx.db;
      r := Ok(rowsAffected);
    }
  }

  // The statement an upsert builds, for any order of its columns.
  lemma UpsertMerges(target: Target, table: string, columns: seq<string>, values: seq<Val>, pk: seq<string>,
                     updates: seq<string>, row: Row, db: DB)
    requires |columns| == |values| && Names(columns) == row.Keys && Zip(columns, values) == row
    requires Names(updates) == row.Keys - Names(pk) && (updates == [] <==> row.Keys <= Names(pk))
    ensures Execute(target, InsertOrUpdate(table, columns, values, pk, updates), db)
            == MergeRow(target, table, pk, row, db)
  {
    assert Project(row, Names(updates)) == row - Names(pk);
  }

  lemma UpToStep(target: Target, cache: map<string, seq<string>>, changes: seq<Change>, i: nat, idempotent: bool,
                 failAt: Option<Failure>, db: DB, before: Applied, step: Applied)
    requires i < |changes| && before.result.Ok?
    requires ApplyUpTo(target, cache, changes, i, idempotent, failAt, db) == before
    requires step
             == ApplyChange(target, before.cache, changes[i], idempotent, DropsAt(failAt, i), before.result.value.0)
    ensures ApplyUpTo(target, cache, changes, i + 1, idempotent, failAt, db) ==
            if step.result.Err? then step
            else Applied(step.cache, Ok((step.result.value.0, before.result.value.1 + step.result.value.1)))
  {
  }

  lemma ErrorStep(target: Target, cache: map<string, seq<string>>, changes: seq<Change>, n: nat, idempotent: bool,
                  failAt: Option<Failure>, db: DB, a: Applied)
    requires n < |changes| && a == ApplyUpTo(target, cache, changes, n, idempotent, failAt, db) && a.result.Err?
    ensures ApplyUpTo(target, cache, changes, n + 1, idempotent, failAt, db) == a
  {
  }

  lemma {:induction false} ErrorStays(target: Target, cache: map<string, seq<string>>, changes: seq<Change>, n: nat,
                                      idempotent: bool, failAt: Option<Failure>, db: DB, a: Applied)
    requires n <= |changes| && a == ApplyUpTo(target, cache, changes, n, idempotent, failAt, db) && a.result.Err?
    ensures ApplyUpTo(target, cache, changes, |changes|, idempotent, failAt, db) == a
    decreases |changes| - n
  {
    if n < |changes| {
      ErrorStep(target, cache, changes, n, idempotent, failAt, db, a);
      ErrorStays(target, cache, changes, n + 1, idempotent, failAt, db, a);
    }
  }

  // ---------- what the statements mean for the replica ----------

  // Every stored row of a table with a primary key is filed under it, as PostgreSQL enforces.
  predicate KeyedDb(target: Target, db: DB) {
    forall key :: key in db ==> KeyedRow(target, key, db[key])
  }

  predicate KeyedRow(target: Target, key: Key, row: Row) {
    && key.table in target.catalog
    && (target.catalog[key.table].primaryKey != [] ==>
          && Names(target.catalog[key.table].primaryKey) <= row.Keys
          && key.pk == Project(row, Names(target.catalog[key.table].primaryKey)))
  }

  // The change carries its row's key, over the columns that are the target table's primary key.
  predicate SameKey(target: Target, c: Change) {
    var table := TargetTable(target.mappings, c);
    && c.primaryKey.Some? && c.rowData.Some?
    && c.primaryKey.value == Project(c.rowData.value, c.primaryKey.value.Keys)
    && (table in target.catalog ==> c.primaryKey.value.Keys == Names(target.catalog[table].primaryKey))
  }

  lemma NamedKey(primaryKey: seq<string>, names: set<string>)
    requires Names(primaryKey) == names && names != {}
    ensures primaryKey != []
  {
  }

  // Deleting by the full primary key removes that key and nothing else.
  lemma DeleteByKey(target: Target, db: DB, table: string, pk: Row)
    requires KeyedDb(target, db) && table in target.catalog && pk.Keys == Names(target.catalog[table].primaryKey)
    requires pk != map[]
    ensures db - Selected(db, table, pk) == db - {Key(table, pk)}
    ensures Selected(db, table, pk) == if Key(table, pk) in db then {Key(table, pk)} else {}
  {
    var names := Names(target.catalog[table].primaryKey);
    NamedKey(target.catalog[table].primaryKey, pk.Keys);
    forall key | key in db && key.table == table
      ensures Meets(db[key], pk) <==> key.pk == pk
    {
      assert KeyedRow(target, key, db[key]);
      assert key.pk == Project(db[key], names);
      if Meets(db[key], pk) { assert Project(db[key], names) == pk; }
    }
    assert forall key :: key in Selected(db, table, pk) <==> key in db && key == Key(table, pk);
  }

  // Merging a row into its key writes the row there, whichever columns were spared as key columns.
  lemma MergeIsPut(target: Target, table: string, pk: seq<string>, row: Row, db: DB)
    requires KeyedDb(target, db) && MergeRow(target, table, pk, row, db).Ok?
    ensures MergeRow(target, table, pk, row, db).value.0
            == ApplyOne(Write(Key(table, Project(row, Names(pk))), Put(row)), db)
  {
    var key := Key(table, Project(row, Names(pk)));
    assert pk[0] in Names(pk);
    NamedKey(target.catalog[table].primaryKey, Names(pk));
    if key in db {
      assert KeyedRow(target, key, db[key]);
      assert Project(db[key], Names(pk)) == Project(row, Names(pk));
      MergeSparesKey(db[key], row, Names(pk));
      if row.Keys <= Names(pk) { assert db[key := db[key]] == db; }
    }
  }

  lemma MergeSparesKey(stored: Row, row: Row, names: set<string>)
    requires Project(stored, names) == Project(row, names)
    ensures stored + (row - names) == stored + row
    ensures row.Keys <= names ==> stored + row == stored
  {
    forall col | col in row && col in names
      ensures col in stored && stored[col] == row[col]
    {
      assert col in Project(row, names) && Project(stored, names)[col] == Project(row, names)[col];
    }
  }

  lemma PutKeepsKeyed(target: Target, db: DB, table: string, row: Row)
    requires KeyedDb(target, db) && table in target.catalog && Names(target.catalog[table].primaryKey) <= row.Keys
    ensures KeyedDb(target,
                    ApplyOne(Write(Key(table, Project(row, Names(target.catalog[table].primaryKey))), Put(row)), db))
  {
    var names := Names(target.catalog[table].primaryKey);
    var key := Key(table, Project(row, names));
    if key in db {
      assert KeyedRow(target, key, db[key]);
      assert Project(db[key] + row, names) == Project(row, names);
    }
  }

  // In idempotent mode a statement that succeeds does what the change's write says.
  lemma ChangeIsWrites(target: Target, cache: map<string, seq<string>>, c: Change, drops: Drops, db: DB)
    requires KeyedDb(target, db) && SameKey(target, c)
    requires ApplyChange(target, cache, c, true, drops, db).result.Ok?
    ensures ApplyChange(target, cache, c, true, drops, db).result.value.0 == Apply(ChangeWrites(target.mappings, c), db)
    ensures KeyedDb(target, Apply(ChangeWrites(target.mappings, c), db))
  {
    var ws, table := ChangeWrites(target.mappings, c), TargetTable(target.mappings, c);
    if ws != [] {
      assert |ws| == 1 && ws[1..] == [] && Apply(ws, db) == ApplyOne(ws[0], db);
      if c.operation == Delete {
        DeleteByKey(target, db, table, c.primaryKey.value);
      } else {
        var pk := PkColumns(target, cache, c, drops.AtLookup?).0.value;
        MergeIsPut(target, table, pk, c.rowData.value, db);
        PutKeepsKeyed(target, db, table, c.rowData.value);
      }
    }
  }

  lemma ExtendWrites(mappings: seq<SchemaMapping>, changes: seq<Change>, i: nat, db: DB)
    requires i < |changes|
    ensures Apply(BatchWrites(mappings, changes[..i + 1]), db)
            == Apply(ChangeWrites(mappings, changes[i]), Apply(BatchWrites(mappings, changes[..i]), db))
  {
    var done, c := changes[..i], changes[i];
    assert changes[..i + 1] == done + [c] && [c][1..] == [];
    BatchWritesConcat(mappings, done, [c]);
    assert BatchWrites(mappings, [c]) == ChangeWrites(mappings, c);
    ApplyConcat(BatchWrites(mappings, done), ChangeWrites(mappings, c), db);
  }

  lemma {:induction false} UpToIsWrites(target: Target, cache: map<string, seq<string>>, changes: seq<Change>, n: nat,
                                        failAt: Option<Failure>, db: DB)
    requires n <= |changes| && KeyedDb(target, db) && forall c :: c in changes ==> SameKey(target, c)
    requires ApplyUpTo(target, cache, changes, n, true, failAt, db).result.Ok?
    ensures ApplyUpTo(target, cache, changes, n, true, failAt, db).result.value.0
            == Apply(BatchWrites(target.mappings, changes[..n]), db)
    ensures KeyedDb(target, Apply(BatchWrites(target.mappings, changes[..n]), db))
  {
    if n > 0 {
      var a := ApplyUpTo(target, cache, changes, n - 1, true, failAt, db);
      assert a.result.Ok?;
      UpToIsWrites(target, cache, changes, n - 1, failAt, db);
      ExtendWrites(target.mappings, changes, n - 1, db);
      NextIsWrites(target, cache, changes, n - 1, failAt, db, a);
    }
  }

  lemma NextIsWrites(target: Target, cache: map<string, seq<string>>, changes: seq<Change>, i: nat,
                     failAt: Option<Failure>, db: DB, a: Applied)
    requires i < |changes| && SameKey(target, changes[i])
    requires a == ApplyUpTo(target, cache, changes, i, true, failAt, db) && a.result.Ok?
    requires KeyedDb(target, a.result.value.0)
    requires ApplyUpTo(target, cache, changes, i + 1, true, failAt, db).result.Ok?
    ensures ApplyUpTo(target, cache, changes, i + 1, true, failAt, db).result.value.0
            == Apply(ChangeWrites(target.mappings, changes[i]), a.result.value.0)
    ensures KeyedDb(target, Apply(ChangeWrites(target.mappings, changes[i]), a.result.value.0))
  {
    var step := ApplyChange(target, a.cache, changes[i], true, DropsAt(failAt, i), a.result.value.0);
    UpToStep(target, cache, changes, i, true, failAt, db, a, step);
    ChangeIsWrites(target, a.cache, changes[i], DropsAt(failAt, i), a.result.value.0);
  }

  // A batch that commits in idempotent mode has applied its writes, all of them and in order.
  lemma CommittedBatchIsWrites(target: Target, cache: map<string, seq<string>>, changes: seq<Change>,
                               failAt: Option<Failure>, db: DB)
    requires KeyedDb(target, db) && forall c :: c in changes ==> SameKey(target, c)
    requires ApplyAll(target, cache, changes, true, failAt, db).result.Ok?
    ensures ApplyAll(target, cache, changes, true, failAt, db).result.value.0
            == Apply(BatchWrites(target.mappings, changes), db)
    ensures KeyedDb(target, ApplyAll(target, cache, changes, true, failAt, db).result.value.0)
  {
    UpToIsWrites(target, cache, changes, |changes|, failAt, db);
    assert changes[..|changes|] == changes;
  }

  // How many rows a change affects: none if it writes nothing, deletes nothing or merges a row that is nothing but
  // its key into itself, else one.
  function Affected(target: Target, c: Change, db: DB): nat
    requires SameKey(target, c)
  {
    var key := Key(TargetTable(target.mappings, c), c.primaryKey.value);
    match c.operation
    case Insert | UpdateNew =>
      if c.rowData.value == map[] || (key in db && c.rowData.value.Keys <= key.pk.Keys) then 0 else 1
    case Delete => if key.pk != map[] && key in db then 1 else 0
    case UpdateOld | Unspecified => 0
  }

  lemma ChangeAffects(target: Target, cache: map<string, seq<string>>, c: Change, drops: Drops, db: DB)
    requires KeyedDb(target, db) && SameKey(target, c)
    requires ApplyChange(target, cache, c, true, drops, db).result.Ok?
    ensures ApplyChange(target, cache, c, true, drops, db).result.value.1 == Affected(target, c, db)
  {
    if c.operation == Delete && c.primaryKey.value != map[] {
      DeleteByKey(target, db, TargetTable(target.mappings, c), c.primaryKey.value);
    }
  }

  // The rows a batch affects, each change counted where the ones before it have left the database.
  function AffectedBy(target: Target, changes: seq<Change>, db: DB): nat
    requires forall c :: c in changes ==> SameKey(target, c)
  {
    if changes == [] then 0
    else
      var init, last := changes[..|changes| - 1], changes[|changes| - 1];
      AffectedBy(target, init, db) + Affected(target, last, Apply(BatchWrites(target.mappings, init), db))
  }

  lemma {:induction false} UpToAffects(target: Target, cache: map<string, seq<string>>, changes: seq<Change>, n: nat,
                                       failAt: Option<Failure>, db: DB)
    requires n <= |changes| && KeyedDb(target, db) && forall c :: c in changes ==> SameKey(target, c)
    requires ApplyUpTo(target, cache, changes, n, true, failAt, db).result.Ok?
    ensures ApplyUpTo(target, cache, changes, n, true, failAt, db).result.value.1
            == AffectedBy(target, changes[..n], db)
  {
    if n > 0 {
      var a := ApplyUpTo(target, cache, changes, n - 1, true, failAt, db);
      UpToAffects(target, cache, changes, n - 1, failAt, db);
      UpToIsWrites(target, cache, changes, n - 1, failAt, db);
      assert changes[..n][..n - 1] == changes[..n - 1];
      ChangeAffects(target, a.cache, changes[n - 1], DropsAt(failAt, n - 1), a.result.value.0);
    }
  }

  // A batch that commits in idempotent mode reports the rows it affected.
  lemma CommittedBatchCounts(target: Target, cache: map<string, seq<string>>, changes: seq<Change>,
                             failAt: Option<Failure>, db: DB)
    requires KeyedDb(target, db) && forall c :: c in changes ==> SameKey(target, c)
    requires ApplyAll(target, cache, changes, true, failAt, db).result.Ok?
    ensures ApplyAll(target, cache, changes, true, failAt, db).result.value.1 == AffectedBy(target, changes, db)
  {
    UpToAffects(target, cache, changes, |changes|, failAt, db);
    assert changes[..|changes|] == changes;
  }

  // A connection that drops at the commit, or at a statement that would write, fails the whole batch.
  lemma DroppedBatchFails(target: Target, cache: map<string, seq<string>>, changes: seq<Change>, failAt: Failure,
                          db: DB)
    requires failAt.at >= |changes|
             || (!failAt.inLookup && ChangeWrites(target.mappings, changes[failAt.at]) != [])
    ensures ApplyAll(target, cache, changes, true, Some(failAt), db).result.Err?
  {
    var i := failAt.at;
    if i < |changes| {
      var a := ApplyUpTo(target, cache, changes, i, true, Some(failAt), db);
      if a.result.Ok? {
        var step := ApplyChange(target, a.cache, changes[i], true, AtStatement, a.result.value.0);
        UpToStep(target, cache, changes, i, true, Some(failAt), db, a, step);
      } else {
        ErrorStep(target, cache, changes, i, true, Some(failAt), db, a);
      }
      ErrorStays(target, cache, changes, i + 1, true, Some(failAt), db,
                 ApplyUpTo(target, cache, changes, i + 1, true, Some(failAt), db));
    }
  }

  // ---------- the key cache, and the order of a batch ----------

  // A table's key columns: those a change marks as such, or, if it marks none, those of the target table.
  function UncachedPk(target: Target, c: Change): Option<seq<string>> {
    var table := TargetTable(target.mappings, c);
    if KeyNames(c.columns) != [] then Some(KeyNames(c.columns))
    else if table in target.catalog then Some(target.catalog[table].primaryKey)
    else None
  }

  // Metadata is fixed: a table's key columns are the same for each of its changes.
  predicate FixedKeys(target: Target, c: Change, truth: (string, string) -> seq<string>, schemas: set<string>) {
    c.schemaName in schemas && UncachedPk(target, c) == Some(truth(c.schemaName, c.tableName))
  }

  // With fixed metadata the cache answers what the uncached lookup would, and stays right; a catalog query
  // that fails is the only way to get no answer, never a wrong one.
  lemma PkCacheIsTransparent(target: Target, cache: map<string, seq<string>>, c: Change, lookupFails: bool,
                             truth: (string, string) -> seq<string>, schemas: set<string>)
    requires CacheAgrees(cache, truth, schemas) && FixedKeys(target, c, truth, schemas)
    ensures var (columns, cache') := PkColumns(target, cache, c, lookupFails);
            && (columns.Some? || !lookupFails ==> columns == UncachedPk(target, c))
            && CacheAgrees(cache', truth, schemas)
  {
    CacheAgreesInsert(cache, truth, schemas, c.schemaName, c.tableName);
  }

  lemma ChangeKeepsCache(target: Target, cache: map<string, seq<string>>, c: Change, drops: Drops, db: DB,
                         truth: (string, string) -> seq<string>, schemas: set<string>)
    requires CacheAgrees(cache, truth, schemas) && FixedKeys(target, c, truth, schemas)
    ensures CacheAgrees(ApplyChange(target, cache, c, true, drops, db).cache, truth, schemas)
  {
    PkCacheIsTransparent(target, cache, c, drops.AtLookup?, truth, schemas);
  }

  // So it stays right whatever becomes of a batch.
  lemma {:induction false} UpToKeepsCache(target: Target, cache: map<string, seq<string>>, changes: seq<Change>, n: nat,
                                          failAt: Option<Failure>, db: DB, truth: (string, string) -> seq<string>,
                                          schemas: set<string>)
    requires n <= |changes| && CacheAgrees(cache, truth, schemas)
    requires forall c :: c in changes ==> FixedKeys(target, c, truth, schemas)
    ensures CacheAgrees(ApplyUpTo(target, cache, changes, n, true, failAt, db).cache, truth, schemas)
  {
    if n > 0 {
      UpToKeepsCache(target, cache, changes, n - 1, failAt, db, truth, schemas);
      var a := ApplyUpTo(target, cache, changes, n - 1, true, failAt, db);
      if a.result.Ok? {
        ChangeKeepsCache(target, a.cache, changes[n - 1], DropsAt(failAt, n - 1), a.result.value.0, truth, schemas);
      }
    }
  }

  // Whether a change's statement can succeed does not depend on the database in idempotent mode.
  predicate StatementOk(target: Target, c: Change, truth: (string, string) -> seq<string>) {
    var table := TargetTable(target.mappings, c);
    match c.operation
    case UpdateOld | Unspecified => true
    case Insert | UpdateNew =>
      c.rowData.Some? &&
      (c.rowData.value == map[] || MergeRow(target, table, truth(c.schemaName, c.tableName), c.rowData.value,
                                            map[]).Ok?)
    case Delete =>
      c.primaryKey.Some? && (c.primaryKey.value == map[] || DeleteRows(target, table, c.primaryKey.value, map[]).Ok?)
  }

  lemma ChangeOkIff(target: Target, cache: map<string, seq<string>>, c: Change,
                    truth: (string, string) -> seq<string>, schemas: set<string>, db: DB)
    requires CacheAgrees(cache, truth, schemas) && FixedKeys(target, c, truth, schemas)
    ensures var a := ApplyChange(target, cache, c, true, Never, db);
            (a.result.Ok? <==> StatementOk(target, c, truth)) && CacheAgrees(a.cache, truth, schemas)
  {
    PkCacheIsTransparent(target, cache, c, false, truth, schemas);
  }

  lemma {:induction false} UpToOkIff(target: Target, cache: map<string, seq<string>>, changes: seq<Change>, n: nat,
                                     truth: (string, string) -> seq<string>, schemas: set<string>, db: DB)
    requires n <= |changes| && CacheAgrees(cache, truth, schemas)
    requires forall c :: c in changes ==> FixedKeys(target, c, truth, schemas)
    ensures var a := ApplyUpTo(target, cache, changes, n, true, None, db);
            && (a.result.Ok? <==> forall i :: 0 <= i < n ==> StatementOk(target, changes[i], truth))
            && CacheAgrees(a.cache, truth, schemas)
  {
    if n > 0 {
      UpToOkIff(target, cache, changes, n - 1, truth, schemas, db);
      var a := ApplyUpTo(target, cache, changes, n - 1, true, None, db);
      if a.result.Ok? {
        var step := ApplyChange(target, a.cache, changes[n - 1], true, Never, a.result.value.0);
        UpToStep(target, cache, changes, n - 1, true, None, db, a, step);
        ChangeOkIff(target, a.cache, changes[n - 1], truth, schemas, a.result.value.0);
      }
    }
  }

  // A batch is accepted if each of its statements can succeed and the constraints hold at the end.
  lemma AcceptedIff(target: Target, cache: map<string, seq<string>>, changes: seq<Change>,
                    truth: (string, string) -> seq<string>, schemas: set<string>, db: DB)
    requires KeyedDb(target, db) && CacheAgrees(cache, truth, schemas)
    requires forall c :: c in changes ==> SameKey(target, c)
    requires forall c :: c in changes ==> FixedKeys(target, c, truth, schemas)
    ensures var a := ApplyAll(target, cache, changes, true, None, db);
            var after := Apply(BatchWrites(target.mappings, changes), db);
            && (a.result.Ok?
                <==> (forall c :: c in changes ==> StatementOk(target, c, truth)) && target.constraints(after))
            && (a.result.Ok? ==> a.result.value.0 == after && KeyedDb(target, after))
            && CacheAgrees(a.cache, truth, schemas)
  {
    UpToOkIff(target, cache, changes, |changes|, truth, schemas, db);
    AllOrSome(target, changes, truth);
    if ApplyUpTo(target, cache, changes, |changes|, true, None, db).result.Ok? {
      UpToIsWrites(target, cache, changes, |changes|, None, db);
      assert changes[..|changes|] == changes;
    }
  }

  lemma AllOrSome(target: Target, changes: seq<Change>, truth: (string, string) -> seq<string>)
    ensures (forall i :: 0 <= i < |changes| ==> StatementOk(target, changes[i], truth))
            <==> (forall c :: c in changes ==> StatementOk(target, c, truth))
  {
  }

  // Two orders of one batch that agree key by key are both accepted or both rejected, and leave the same
  // database: constraints are looked at only when the transaction commits.
  lemma AcceptanceIsOrderIndependent(target: Target, cache: map<string, seq<string>>, u: seq<Change>, w: seq<Change>,
                                     truth: (string, string) -> seq<string>, schemas: set<string>, db: DB)
    requires KeyedDb(target, db) && CacheAgrees(cache, truth, schemas)
    requires forall c :: c in u <==> c in w
    requires forall c :: c in u ==> SameKey(target, c)
    requires forall c :: c in u ==> FixedKeys(target, c, truth, schemas)
    requires forall key :: On(BatchWrites(target.mappings, u), key) == On(BatchWrites(target.mappings, w), key)
    ensures var a, b := ApplyAll(target, cache, u, true, None, db), ApplyAll(target, cache, w, true, None, db);
            (a.result.Ok? <==> b.result.Ok?) && (a.result.Ok? ==> a.result.value.0 == b.result.value.0)
  {
    AcceptedIff(target, cache, u, truth, schemas, db);
    AcceptedIff(target, cache, w, truth, schemas, db);
    OrderIndependence(BatchWrites(target.mappings, u), BatchWrites(target.mappings, w), db);
  }
}
