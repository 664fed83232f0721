// The source database as change data capture shows it: a log of captured rows, the windows in
// which a poll reads it, and the change requests made from its rows.
module Source {
  import opened Common
  import opened Lsn
  import opened Replica
  import opened Sequences

  datatype ColumnMeta = ColumnMeta(name: string, isPrimaryKey: bool)

  // A capture instance of a table.
  datatype Capture = Capture(schema: string, table: string, minLsn: Lsn, columns: seq<ColumnMeta>)

  // One captured row: `capture` is the position of its capture instance, `op` the value of
  // __$operation, `values` the captured column values in column order.
  datatype Entry = Entry(lsn: Lsn, capture: nat, op: int, values: seq<Val>)

  // The captured rows in the order of (__$start_lsn, __$seqval), and what fn_cdc_get_max_lsn says
  // ([] stands for NULL).
  datatype SourceDb = SourceDb(captures: seq<Capture>, log: seq<Entry>, maxLsn: Lsn)

  // ---------- positions ----------

  // A position in the log as a number; no position at all lies before every row.
  function Pos(l: Lsn): int {
    if l == [] then -1 else Value(l)
  }

  function After(log: seq<Entry>, pos: int): seq<Entry> {
    Filter((e: Entry) => Value(e.lsn) > pos, log)
  }

  function UpTo(log: seq<Entry>, pos: int): seq<Entry> {
    Filter((e: Entry) => Value(e.lsn) <= pos, log)
  }

  function Of(log: seq<Entry>, capture: nat): seq<Entry> {
    Filter((e: Entry) => e.capture == capture, log)
  }

  predicate Sorted(log: seq<Entry>) {
    forall i, j :: 0 <= i < j < |log| ==> Value(log[i].lsn) <= Value(log[j].lsn)
  }

  // What SQL Server guarantees about a captured database whose cleanup removed nothing unread.
  predicate WellFormed(db: SourceDb) {
    && Sorted(db.log)
    && (|db.maxLsn| == 0 || |db.maxLsn| == LSN_BYTES)
    && Pos(db.maxLsn) + 1 < Pow256(LSN_BYTES)
    && (forall c :: c in db.captures ==> |c.minLsn| == 0 || |c.minLsn| == LSN_BYTES)
    && (forall e :: e in db.log ==> GoodEntry(db, e))
  }

  predicate GoodEntry(db: SourceDb, e: Entry) {
    && |e.lsn| == LSN_BYTES
    && e.capture < |db.captures|
    && Value(e.lsn) <= Pos(db.maxLsn)
    && |db.captures[e.capture].minLsn| == LSN_BYTES
    && 0 < Value(db.captures[e.capture].minLsn) <= Value(e.lsn)
  }

  lemma {:induction false} SortedSplit(log: seq<Entry>, pos: int)
    requires Sorted(log)
    ensures log == UpTo(log, pos) + After(log, pos)
  {
    if log != [] {
      SortedSplit(log[1..], pos);
      if Value(log[0].lsn) > pos {
        FilterAll((e: Entry) => Value(e.lsn) > pos, log);
        FilterAll((e: Entry) => Value(e.lsn) <= pos, log);
      }
    }
  }

  lemma {:induction false} SortedFilter(f: Entry -> bool, log: seq<Entry>)
    requires Sorted(log)
    ensures Sorted(Filter(f, log))
  {
    if log != [] {
      SortedFilter(f, log[1..]);
      forall e | e in Filter(f, log[1..])
        ensures Value(log[0].lsn) <= Value(e.lsn)
      {
        FilterMember(f, log[1..], e);
      }
    }
  }

  lemma AfterOf(log: seq<Entry>, pos: int, capture: nat)
    ensures Of(After(log, pos), capture) == After(Of(log, capture), pos)
  {
    FilterCommutes((e: Entry) => e.capture == capture, (e: Entry) => Value(e.lsn) > pos, log);
  }

  lemma {:induction false} AfterAfter(log: seq<Entry>, p: int, q: int)
    requires p <= q
    ensures After(After(log, p), q) == After(log, q)
  {
    if log != [] {
      AfterAfter(log[1..], p, q);
      var rest := After(log[1..], p);
      assert ([log[0]] + rest)[1..] == rest;
    }
  }

  // ---------- fn_cdc_increment_lsn ----------

  function Zeros(n: nat): (l: Lsn)
    ensures |l| == n && Value(l) == 0
  {
    if n == 0 then [] else [0] + Zeros(n - 1)
  }

  // The next LSN of the same length; none follows the largest one.
  function Increment(l: Lsn): Option<Lsn> {
    if l == [] then None
    else
      match Increment(l[1..])
      case Some(tail) => Some([l[0]] + tail)
      case None => if l[0] < 255 then Some([l[0] + 1] + Zeros(|l| - 1)) else None
  }

  // The increment is the strict successor: no LSN lies between, and only the largest has none.
  lemma {:induction false} IncrementIsSuccessor(l: Lsn)
    ensures Increment(l).Some? ==> |Increment(l).value| == |l| && Value(Increment(l).value) == Value(l) + 1
    ensures Increment(l).None? <==> Value(l) + 1 == Pow256(|l|)
  {
    if l != [] {
      var tail := l[1..];
      IncrementIsSuccessor(tail);
      ValueBound(tail);
      var p := Pow256(|tail|);
      match Increment(tail) {
        case Some(t) =>
          assert ([l[0]] + t)[1..] == t;
          if l[0] < 255 { HigherFirstByte(l[0] as nat, 255, p, Value(tail) + 1, 0); }
        case None =>
          if l[0] < 255 {
            var z := Zeros(|tail|);
            assert ([l[0] + 1] + z)[1..] == z;
            assert (l[0] as nat + 1) * p == l[0] as nat * p + p;
            HigherFirstByte(l[0] as nat + 1, 256, p, 0, 0);
          }
      }
    }
  }

  // ---------- where a poll starts ----------

  // The least nonzero minimum LSN over the capture instances; [] if there is none.
  function MinLsn(captures: seq<Capture>): Lsn {
    if captures == [] then []
    else
      var m, rest := captures[0].minLsn, MinLsn(captures[1..]);
      if m == [] || Value(m) == 0 then rest
      else if rest == [] || CompareBytes(m, rest) <= 0 then m
      else rest
  }

  function StartLsn(db: SourceDb, from: Lsn): Lsn {
    if from == [] then MinLsn(db.captures)
    else
      match Increment(from)
      case Some(next) => next
      case None => MinLsn(db.captures)
  }

  function EffectiveLsn(start: Lsn, tableMin: Lsn): Lsn {
    if tableMin != [] && CompareBytes(tableMin, start) > 0 then tableMin else start
  }

  // ---------- what a poll returns ----------

  // Reading one table can fail with an error, which skips the table, or with a query error that is
  // only logged and counts as an empty result.
  datatype ReadFault = Healthy | Skipped | Swallowed

  function FaultAt(faults: seq<ReadFault>, i: nat): ReadFault {
    if i < |faults| then faults[i] else Healthy
  }

  function RowsFrom(db: SourceDb, i: nat, start: Lsn): seq<Entry> {
    Filter((e: Entry) => e.capture == i && Value(e.lsn) >= Value(start), db.log)
  }

  // TOP(batchSize) of one table's rows.
  function Window(db: SourceDb, i: nat, start: Lsn, batchSize: nat): seq<Entry>
    requires i < |db.captures|
  {
    Take(RowsFrom(db, i, EffectiveLsn(start, db.captures[i].minLsn)), batchSize)
  }

  // What one more table adds to a poll.
  function Part(db: SourceDb, i: nat, start: Lsn, batchSize: nat, faults: seq<ReadFault>): seq<Entry>
    requires i < |db.captures|
  {
    if FaultAt(faults, i).Healthy? then Window(db, i, start, batchSize) else []
  }

  // The tables from the i-th on, stopping as soon as the batch is full.
  function ReadTables(db: SourceDb, i: nat, start: Lsn, batchSize: nat, faults: seq<ReadFault>,
                      acc: seq<Entry>): seq<Entry>
    requires i <= |db.captures|
    decreases |db.captures| - i
  {
    if i == |db.captures| then acc
    else if FaultAt(faults, i).Skipped? then ReadTables(db, i + 1, start, batchSize, faults, acc)
    else
      var acc' := acc + Part(db, i, start, batchSize, faults);
      if |acc'| >= batchSize then acc' else ReadTables(db, i + 1, start, batchSize, faults, acc')
  }

  datatype PollResult = PollResult(entries: seq<Entry>, maxLsn: Lsn)

  function Poll(db: SourceDb, from: Lsn, batchSize: nat, faults: seq<ReadFault>): PollResult {
    var start := StartLsn(db, from);
    if db.maxLsn == [] || start == [] then PollResult([], [])
    else PollResult(ReadTables(db, 0, start, batchSize, faults, []), db.maxLsn)
  }

  // ---------- shape of a poll ----------

  // A clamp to the table's minimum loses nothing when no row lies below it.
  lemma ClampKeepsRows(db: SourceDb, i: nat, start: Lsn)
    requires WellFormed(db) && i < |db.captures| && |start| == LSN_BYTES
    ensures RowsFrom(db, i, EffectiveLsn(start, db.captures[i].minLsn)) == RowsFrom(db, i, start)
  {
    var m := db.captures[i].minLsn;
    assert db.captures[i] in db.captures;
    if m != [] {
      CompareIsNumeric(m, start);
      FilterSame((e: Entry) => e.capture == i && Value(e.lsn) >= Value(EffectiveLsn(start, m)),
                 (e: Entry) => e.capture == i && Value(e.lsn) >= Value(start), db.log);
    }
  }

  // Every table contributes a prefix of its rows from the start on, tables keep their order, and no
  // more than batchSize rows come from one table.
  lemma {:induction false} ReadTablesShape(db: SourceDb, i: nat, start: Lsn, batchSize: nat, faults: seq<ReadFault>,
                                           acc: seq<Entry>, capture: nat)
    requires i <= |db.captures|
    requires forall e :: e in acc ==> e.capture < i
    ensures var r := ReadTables(db, i, start, batchSize, faults, acc);
            && (capture < i ==> Of(r, capture) == Of(acc, capture))
            && (i <= capture < |db.captures| ==> Of(r, capture) <= Window(db, capture, start, batchSize))
            && (forall e :: e in r ==> e.capture < |db.captures|)
    decreases |db.captures| - i
  {
    NoneOf(acc, capture);
    if i < |db.captures| {
      var part := if FaultAt(faults, i).Skipped? then [] else Part(db, i, start, batchSize, faults);
      WindowRows(db, i, start, batchSize);
      assert acc + [] == acc;
      FilterConcat((e: Entry) => e.capture == capture, acc, part);
      OfOther(part, i, capture);
      if FaultAt(faults, i).Skipped? || |acc + part| < batchSize {
        ReadTablesShape(db, i + 1, start, batchSize, faults, acc + part, capture);
      }
    }
  }

  lemma NoneOf(acc: seq<Entry>, capture: nat)
    ensures (forall e :: e in acc ==> e.capture < capture) ==> Of(acc, capture) == []
  {
    FilterAll((e: Entry) => e.capture == capture, acc);
  }

  // Rows of one capture: all of them for that capture, none for another.
  lemma OfOther(w: seq<Entry>, i: nat, capture: nat)
    requires forall e :: e in w ==> e.capture == i
    ensures Of(w, capture) == if capture == i then w else []
  {
    FilterAll((e: Entry) => e.capture == capture, w);
  }

  lemma WindowRows(db: SourceDb, i: nat, start: Lsn, batchSize: nat)
    requires i < |db.captures|
    ensures forall e :: e in Window(db, i, start, batchSize) ==> e.capture == i && e in db.log
    ensures |Window(db, i, start, batchSize)| <= batchSize
  {
    var s := EffectiveLsn(start, db.captures[i].minLsn);
    forall e | e in Window(db, i, start, batchSize)
      ensures e.capture == i && e in db.log
    {
      FilterMember((e: Entry) => e.capture == i && Value(e.lsn) >= Value(s), db.log, e);
    }
  }

  // With room for at least one row a poll returns at most 2B-1 rows, and at most B from one table.
  lemma {:induction false} PollBound(db: SourceDb, i: nat, start: Lsn, batchSize: nat, faults: seq<ReadFault>,
                                     acc: seq<Entry>)
    requires i <= |db.captures| && batchSize > 0 && |acc| < batchSize
    ensures |ReadTables(db, i, start, batchSize, faults, acc)| <= 2 * batchSize - 1
    ensures i + 1 >= |db.captures| && acc == [] ==> |ReadTables(db, i, start, batchSize, faults, acc)| <= batchSize
    decreases |db.captures| - i
  {
    if i < |db.captures| {
      WindowRows(db, i, start, batchSize);
      if FaultAt(faults, i).Skipped? {
        PollBound(db, i + 1, start, batchSize, faults, acc);
      } else {
        var acc' := acc + Part(db, i, start, batchSize, faults);
        if |acc'| < batchSize {
          PollBound(db, i + 1, start, batchSize, faults, acc');
        }
      }
    }
  }

  // ---------- where a poll stands relative to the cursor ----------

  lemma {:induction false} MinLsnBelow(captures: seq<Capture>, i: nat)
    requires forall c :: c in captures ==> |c.minLsn| == 0 || |c.minLsn| == LSN_BYTES
    requires i < |captures| && captures[i].minLsn != [] && Value(captures[i].minLsn) > 0
    ensures |MinLsn(captures)| == LSN_BYTES
    ensures Value(MinLsn(captures)) <= Value(captures[i].minLsn)
  {
    MinLsnLength(captures[1..]);
    if MinLsn(captures[1..]) != [] {
      if captures[0].minLsn != [] { CompareIsNumeric(captures[0].minLsn, MinLsn(captures[1..])); }
    }
    if i > 0 {
      MinLsnBelow(captures[1..], i - 1);
    }
  }

  lemma {:induction false} MinLsnLength(captures: seq<Capture>)
    requires forall c :: c in captures ==> |c.minLsn| == 0 || |c.minLsn| == LSN_BYTES
    ensures |MinLsn(captures)| == 0 || |MinLsn(captures)| == LSN_BYTES
  {
    if captures != [] {
      assert captures[0] in captures;
      assert forall c :: c in captures[1..] ==> c in captures;
      MinLsnLength(captures[1..]);
    }
  }

  // It is one of the minimum LSNs, the least of those that are not zero, and there is none only if all are zero.
  lemma {:induction false} MinLsnIsLeast(captures: seq<Capture>)
    requires forall c :: c in captures ==> |c.minLsn| == 0 || |c.minLsn| == LSN_BYTES
    ensures var m := MinLsn(captures);
            && (m == [] <==> forall c :: c in captures ==> c.minLsn == [] || Value(c.minLsn) == 0)
            && (m != [] ==> Value(m) != 0 && exists c :: c in captures && c.minLsn == m)
            && (m != [] ==> forall c :: c in captures && c.minLsn != [] && Value(c.minLsn) != 0
                                        ==> Value(m) <= Value(c.minLsn))
  {
    if captures != [] {
      var first, rest := captures[0].minLsn, MinLsn(captures[1..]);
      assert captures == [captures[0]] + captures[1..];
      MinLsnIsLeast(captures[1..]);
      MinLsnLength(captures[1..]);
      if first != [] && rest != [] { CompareIsNumeric(first, rest); }
      if rest != [] {
        var c :| c in captures[1..] && c.minLsn == rest;
        assert c in captures;
      }
    }
  }
}
