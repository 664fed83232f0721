// The replicated tables and the algebra of writing to them.
//
// A target database maps a key (table, primary-key columns) to a row. Replication issues two kinds of
// write: merge a row into a key (idempotent upsert) and delete a key. Everything the protocol needs
// is one law about sequences of writes: writes that will be written again may be written early.
module Replica {
  import opened Common

  // A column's value, as its JSON text; nothing here looks inside it.
  type Val = string

  type Row = map<string, Val>

  datatype Key = Key(table: string, pk: Row)

  type DB = map<Key, Row>

  // One key of the database: the row stored there, if any.
  type Cell = Option<Row>

  datatype CellOp = Put(row: Row) | Del

  datatype Write = Write(key: Key, op: CellOp)

  function Lookup(db: DB, key: Key): Cell {
    if key in db then Some(db[key]) else None
  }

  // A put keeps the columns its row does not mention.
  function StepCell(op: CellOp, c: Cell): Cell {
    match op
    case Put(row) => if c.Some? then Some(c.value + row) else Some(row)
    case Del => None
  }

  function RunCell(ops: seq<CellOp>, c: Cell): Cell {
    if ops == [] then c else RunCell(ops[1..], StepCell(ops[0], c))
  }

  function ApplyOne(w: Write, db: DB): DB {
    match StepCell(w.op, Lookup(db, w.key))
    case Some(row) => db[w.key := row]
    case None => db - {w.key}
  }

  function Apply(ws: seq<Write>, db: DB): DB {
    if ws == [] then db else Apply(ws[1..], ApplyOne(ws[0], db))
  }

  // The writes a sequence issues to one key, in order.
  function On(ws: seq<Write>, key: Key): seq<CellOp> {
    if ws == [] then []
    else (if ws[0].key == key then [ws[0].op] else []) + On(ws[1..], key)
  }

  // ---------- concatenation, and the pointwise view ----------

  lemma {:induction false} RunCellConcat(u: seq<CellOp>, w: seq<CellOp>, c: Cell)
    ensures RunCell(u + w, c) == RunCell(w, RunCell(u, c))
  {
    if u == [] {
      assert u + w == w;
    } else {
      assert (u + w)[1..] == u[1..] + w;
      RunCellConcat(u[1..], w, StepCell(u[0], c));
    }
  }

  lemma {:induction false} ApplyConcat(u: seq<Write>, w: seq<Write>, db: DB)
    ensures Apply(u + w, db) == Apply(w, Apply(u, db))
  {
    if u == [] {
      assert u + w == w;
    } else {
      assert (u + w)[1..] == u[1..] + w;
      ApplyConcat(u[1..], w, ApplyOne(u[0], db));
    }
  }

  lemma {:induction false} OnConcat(u: seq<Write>, w: seq<Write>, key: Key)
    ensures On(u + w, key) == On(u, key) + On(w, key)
  {
    if u == [] {
      assert u + w == w;
    } else {
      assert (u + w)[1..] == u[1..] + w;
      OnConcat(u[1..], w, key);
    }
  }

  lemma {:induction false} OnMember(ws: seq<Write>, key: Key, op: CellOp)
    ensures op in On(ws, key) <==> Write(key, op) in ws
  {
    if ws != [] {
      OnMember(ws[1..], key, op);
      assert ws == [ws[0]] + ws[1..];
    }
  }

  // What a sequence of writes does to a key depends on that key's writes and content alone.
  lemma {:induction false} Pointwise(ws: seq<Write>, db: DB, key: Key)
    ensures Lookup(Apply(ws, db), key) == RunCell(On(ws, key), Lookup(db, key))
  {
    if ws != [] {
      Pointwise(ws[1..], ApplyOne(ws[0], db), key);
      if ws[0].key == key {
        assert On(ws, key)[1..] == On(ws[1..], key);
      } else {
        assert On(ws, key) == On(ws[1..], key);
        assert Lookup(ApplyOne(ws[0], db), key) == Lookup(db, key);
      }
    }
  }

  lemma SameCellsSameDb(a: DB, b: DB)
    requires forall key :: Lookup(a, key) == Lookup(b, key)
    ensures a == b
  {
    forall key: Key
      ensures key in a <==> key in b
      ensures key in a ==> a[key] == b[key]
    {
      assert Lookup(a, key) == Lookup(b, key);
    }
  }

  // Order matters only among the writes of one key: two sequences that agree key by key do the same
  // thing. (A batch grouped by table against the same batch in commit order.)
  lemma OrderIndependence(u: seq<Write>, w: seq<Write>, db: DB)
    requires forall key :: On(u, key) == On(w, key)
    ensures Apply(u, db) == Apply(w, db)
  {
    forall key: Key
      ensures Lookup(Apply(u, db), key) == Lookup(Apply(w, db), key)
    {
      Pointwise(u, db, key);
      Pointwise(w, db, key);
    }
    SameCellsSameDb(Apply(u, db), Apply(w, db));
  }

  // ---------- net effect of a sequence on one cell ----------

  // Either every write was a put, and the net effect merges one row; or there was a delete, and
  // the outcome no longer depends on what the cell held.
  datatype Effect = Nothing | Merge(row: Row) | Final(cell: Cell)

  function Act(e: Effect, c: Cell): Cell {
    match e
    case Nothing => c
    case Merge(row) => StepCell(Put(row), c)
    case Final(cell) => cell
  }

  function Then(e: Effect, op: CellOp): Effect {
    match (e, op)
    case (_, Del) => Final(None)
    case (Nothing, Put(row)) => Merge(row)
    case (Merge(m), Put(row)) => Merge(m + row)
    case (Final(cell), Put(row)) => Final(StepCell(op, cell))
  }

  function Net(ops: seq<CellOp>): Effect {
    if ops == [] then Nothing else Then(Net(ops[..|ops| - 1]), ops[|ops| - 1])
  }

  lemma {:induction false} NetIsRun(ops: seq<CellOp>, c: Cell)
    ensures RunCell(ops, c) == Act(Net(ops), c)
  {
    if ops != [] {
      var init, last := ops[..|ops| - 1], ops[|ops| - 1];
      assert ops == init + [last];
      RunCellConcat(init, [last], c);
      NetIsRun(init, c);
      assert RunCell([last], RunCell(init, c)) == StepCell(last, RunCell(init, c));
      if last.Put? && c.Some? && Net(init).Merge? {
        assert (c.value + Net(init).row) + last.row == c.value + (Net(init).row + last.row);
      }
    }
  }

  // The columns mentioned by the puts of a sequence.
  ghost function Columns(ops: seq<CellOp>): set<string> {
    set op, col | op in ops && op.Put? && col in op.row :: col
  }

  lemma {:induction false} NetShape(ops: seq<CellOp>)
    ensures Net(ops).Final? <==> Del in ops
    ensures Net(ops).Nothing? <==> ops == []
    ensures Net(ops).Merge? ==> Net(ops).row.Keys == Columns(ops)
  {
    if ops != [] {
      var init, last := ops[..|ops| - 1], ops[|ops| - 1];
      assert ops == init + [last];
      NetShape(init);
      assert Columns(ops) == Columns(init) + Columns([last]);
      assert last.Put? ==> Columns([last]) == last.row.Keys;
    }
  }

  lemma MergeAbsorbs(m: Row, n: Row, c: Cell)
    requires m.Keys <= n.Keys
    ensures StepCell(Put(n), StepCell(Put(m), c)) == StepCell(Put(n), c)
  {
    assert m + n == n;
    if c.Some? {
      assert (c.value + m) + n == c.value + n;
    }
  }

  // Writing u first changes nothing if every write of u is written again in w.
  lemma AbsorbCell(u: seq<CellOp>, w: seq<CellOp>, c: Cell)
    requires forall op :: op in u ==> op in w
    ensures RunCell(w, RunCell(u, c)) == RunCell(w, c)
  {
    NetIsRun(u, c);
    NetIsRun(w, c);
    NetIsRun(w, RunCell(u, c));
    NetShape(u);
    NetShape(w);
    assert u != [] ==> u[0] in w;
    if Net(u).Merge? && Net(w).Merge? {
      assert Columns(u) <= Columns(w);
      MergeAbsorbs(Net(u).row, Net(w).row, c);
    }
  }

  // The law behind safe replay: for any database, redelivering early what is delivered again later
  // leaves the final database as it would have been.
  lemma Absorption(u: seq<Write>, w: seq<Write>, db: DB)
    requires forall x :: x in u ==> x in w
    ensures Apply(w, Apply(u, db)) == Apply(w, db)
  {
    forall key: Key
      ensures Lookup(Apply(w, Apply(u, db)), key) == Lookup(Apply(w, db), key)
    {
      Pointwise(u, db, key);
      Pointwise(w, db, key);
      Pointwise(w, Apply(u, db), key);
      forall op | op in On(u, key)
        ensures op in On(w, key)
      {
        OnMember(u, key, op);
        OnMember(w, key, op);
      }
      AbsorbCell(On(u, key), On(w, key), Lookup(db, key));
    }
    SameCellsSameDb(Apply(w, Apply(u, db)), Apply(w, db));
  }

  // A batch applied twice, and a batch redelivered with only its first part already applied.
  lemma ReplayIsIdempotent(done: seq<Write>, rest: seq<Write>, db: DB)
    ensures Apply(done + rest, Apply(done + rest, db)) == Apply(done + rest, db)
    ensures Apply(done + rest, Apply(done, db)) == Apply(done + rest, db)
  {
    Absorption(done + rest, done + rest, db);
    Absorption(done, done + rest, db);
  }

  // Without the containment the law fails: an old put written again after its successor survives.
  lemma StaleWriteSurvives(key: Key, stale: Row, newer: Row, db: DB)
    requires exists col :: col in stale && col in newer && stale[col] != newer[col]
    ensures var w := [Write(key, Put(stale)), Write(key, Put(newer))];
            Apply([w[0]], Apply(w, db)) != Apply(w, db)
  {
    var col :| col in stale && col in newer && stale[col] != newer[col];
    var w := [Write(key, Put(stale)), Write(key, Put(newer))];
    assert w == [w[0]] + [w[1]];
    OnConcat([w[0]], [w[1]], key);
    Pointwise([w[0]], Apply(w, db), key);
    Pointwise([w[1]], Apply([w[0]], db), key);
    ApplyConcat([w[0]], [w[1]], db);
    assert Lookup(Apply(w, db), key).value[col] == newer[col];
    assert Lookup(Apply([w[0]], Apply(w, db)), key).value[col] == stale[col];
  }

  // ---------- writes that come once more, late ----------

  // The last writes of a finished part, written again: whatever the cell held, if the rest led to the right
  // outcome before, it does so after.
  lemma AgainCell(p: seq<CellOp>, a: seq<CellOp>, s: seq<CellOp>, start: Cell, c: Cell)
    requires RunCell(s, c) == RunCell(p + a + s, start)
    ensures RunCell(s, RunCell(a, c)) == RunCell(p + a + s, start)
  {
    var y := RunCell(p, start);
    var x := RunCell(a, y);
    RunCellConcat(p, a, start);
    RunCellConcat(p + a, s, start);
    AbsorbCell(a, a, y);
    NetIsRun(s, c);
    NetIsRun(s, x);
    NetIsRun(s, RunCell(a, c));
    NetIsRun(a, c);
    NetIsRun(a, x);
    SameUnderMerge(Net(a), Net(s), c, x);
  }

  // Two cells that a net effect makes equal stay equal under it after an effect that one of them absorbs.
  lemma SameUnderMerge(a: Effect, s: Effect, c: Cell, x: Cell)
    requires Act(s, c) == Act(s, x) && Act(a, x) == x
    ensures Act(s, Act(a, c)) == Act(s, x)
  {
    if s.Merge? && a.Merge? {
      assert x.Some? && x.value + a.row == x.value;
      var m := Act(s, x).value;
      var late := Act(s, Act(a, c)).value;
      forall col
        ensures col in late <==> col in m
        ensures col in m ==> late[col] == m[col]
      {
        if col in a.row && col !in s.row {
          assert col in x.value + a.row && (x.value + a.row)[col] == a.row[col];
          assert col in Act(s, c).value;
        }
      }
      assert late == m;
    }
  }

  // The same with further writes that the rest still holds.
  lemma LateCell(p: seq<CellOp>, a: seq<CellOp>, b: seq<CellOp>, s: seq<CellOp>, start: Cell, c: Cell)
    requires RunCell(s, c) == RunCell(p + a + s, start) && forall op :: op in b ==> op in s
    ensures RunCell(s, RunCell(a + b, c)) == RunCell(p + a + s, start)
  {
    AgainCell(p, a, s, start, c);
    RunCellConcat(a, b, c);
    AbsorbCell(b, s, RunCell(a, c));
  }

  // With complete rows only the last write of a sequence matters.
  predicate CompleteOps(ops: seq<CellOp>, columns: set<string>) {
    forall op :: op in ops && op.Put? ==> op.row.Keys == columns
  }

  predicate Confined(c: Cell, columns: set<string>) {
    c.Some? ==> c.value.Keys <= columns
  }

  function Written(op: CellOp): Cell {
    match op
    case Put(row) => Some(row)
    case Del => None
  }

  lemma {:induction false} LastDecides(ops: seq<CellOp>, columns: set<string>, c: Cell)
    requires CompleteOps(ops, columns) && Confined(c, columns)
    ensures Confined(RunCell(ops, c), columns)
    ensures ops != [] ==> RunCell(ops, c) == Written(ops[|ops| - 1])
  {
    if ops != [] {
      var n := |ops| - 1;
      var held := RunCell(ops[..n], c);
      assert ops == ops[..n] + [ops[n]] && ops[n] in ops;
      assert forall op :: op in ops[..n] ==> op in ops;
      LastDecides(ops[..n], columns, c);
      RunCellConcat(ops[..n], [ops[n]], c);
      assert [ops[n]][1..] == [];
      if ops[n].Put? && held.Some? { assert held.value + ops[n].row == ops[n].row; }
    }
  }

  // So writing some complete rows again leaves the outcome alone if and only if the last of them is the last
  // that was written.
  lemma AgainIff(all: seq<CellOp>, again: seq<CellOp>, columns: set<string>, start: Cell)
    requires CompleteOps(all, columns) && CompleteOps(again, columns) && Confined(start, columns) && all != []
    requires again != []
    ensures RunCell(again, RunCell(all, start)) == RunCell(all, start) <==> again[|again| - 1] == all[|all| - 1]
  {
    LastDecides(all, columns, start);
    LastDecides(again, columns, RunCell(all, start));
  }
}
