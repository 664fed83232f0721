// Which polls are closed, told from the rows beyond the cursor before the poll is made.
module Foresight {
  import opened Common
  import opened Lsn
  import opened Sequences
  import opened Source
  import opened Coverage
  import opened Protocol
  import opened Safety

  // The rows a table has beyond a position.
  function Beyond(db: SourceDb, pos: int, i: nat): seq<Entry> {
    Of(After(db.log, pos), i)
  }

  // How many rows the table being read yields.
  function Yield(db: SourceDb, pos: int, batchSize: nat, faults: seq<ReadFault>, i: nat): (n: nat)
    ensures n <= |Beyond(db, pos, i)|
  {
    var all := |Beyond(db, pos, i)|;
    if !FaultAt(faults, i).Healthy? then 0 else if all <= batchSize then all else batchSize
  }

  // How many rows of the i-th table come back if the tables from the k-th on are read with some rows in hand.
  function WillRead(db: SourceDb, pos: int, batchSize: nat, faults: seq<ReadFault>, k: nat, held: nat, i: nat): (n: nat)
    ensures n <= |Beyond(db, pos, i)|
    decreases |db.captures| - k
  {
    if k >= |db.captures| || i < k then 0
    else if FaultAt(faults, k).Skipped? then WillRead(db, pos, batchSize, faults, k + 1, held, i)
    else
      var n := Yield(db, pos, batchSize, faults, k);
      if i == k then n
      else if held + n >= batchSize then 0
      else WillRead(db, pos, batchSize, faults, k + 1, held + n, i)
  }

  predicate Starts(db: SourceDb, from: Lsn) {
    db.maxLsn != [] && StartLsn(db, from) != []
  }

  // How many rows of each table the next poll will return.
  function RowsAhead(db: SourceDb, from: Lsn, batchSize: nat, faults: seq<ReadFault>, i: nat): (n: nat)
    ensures n <= |Beyond(db, Pos(from), i)|
  {
    if Starts(db, from) then WillRead(db, Pos(from), batchSize, faults, 0, 0, i) else 0
  }

  lemma PartYields(db: SourceDb, from: Lsn, batchSize: nat, faults: seq<ReadFault>, i: nat)
    requires WellFormed(db) && GoodCursor(db, from) && Starts(db, from) && i < |db.captures|
    ensures |Part(db, i, StartLsn(db, from), batchSize, faults)| == Yield(db, Pos(from), batchSize, faults, i)
  {
    RowsFromIsAfter(db, from, i);
  }

  lemma OneTableRead(db: SourceDb, i: nat, start: Lsn, batchSize: nat, faults: seq<ReadFault>, acc: seq<Entry>,
                     part: seq<Entry>, capture: nat)
    requires i <= capture < |db.captures| && (forall e :: e in acc ==> e.capture < i)
    requires part == Part(db, i, start, batchSize, faults)
    ensures Of(acc + part, capture) == if i == capture then part else []
    ensures forall e :: e in acc + part ==> e.capture < i + 1
  {
    WindowRows(db, i, start, batchSize);
    FilterConcat((e: Entry) => e.capture == capture, acc, part);
    NoneOf(acc, capture);
    OfOther(part, i, capture);
  }

  lemma {:induction false} ReadTablesCount(db: SourceDb, from: Lsn, i: nat, batchSize: nat, faults: seq<ReadFault>,
                                           acc: seq<Entry>, capture: nat)
    requires WellFormed(db) && GoodCursor(db, from) && Starts(db, from)
    requires i <= capture < |db.captures| && forall e :: e in acc ==> e.capture < i
    ensures |Of(ReadTables(db, i, StartLsn(db, from), batchSize, faults, acc), capture)|
            == WillRead(db, Pos(from), batchSize, faults, i, |acc|, capture)
    decreases |db.captures| - i
  {
    var start := StartLsn(db, from);
    NoneOf(acc, capture);
    if FaultAt(faults, i).Skipped? {
      if i < capture {
        ReadTablesCount(db, from, i + 1, batchSize, faults, acc, capture);
      } else {
        ReadTablesShape(db, i + 1, start, batchSize, faults, acc, capture);
      }
    } else {
      var part := Part(db, i, start, batchSize, faults);
      PartYields(db, from, batchSize, faults, i);
      OneTableRead(db, i, start, batchSize, faults, acc, part, capture);
      if |acc + part| < batchSize {
        if i < capture {
          ReadTablesCount(db, from, i + 1, batchSize, faults, acc + part, capture);
        } else {
          ReadTablesShape(db, i + 1, start, batchSize, faults, acc + part, capture);
        }
      }
    }
  }

  // A poll returns exactly that many of each table's rows beyond the cursor, and they are the first ones.
  lemma PollAhead(db: SourceDb, from: Lsn, batchSize: nat, faults: seq<ReadFault>, i: nat)
    requires WellFormed(db) && GoodCursor(db, from) && i < |db.captures|
    ensures Of(Poll(db, from, batchSize, faults).entries, i)
            == Beyond(db, Pos(from), i)[..RowsAhead(db, from, batchSize, faults, i)]
  {
    PollPrefix(db, from, batchSize, faults, i);
    if Starts(db, from) { ReadTablesCount(db, from, 0, batchSize, faults, [], i); }
  }

  // ---------- where the poll will move the cursor ----------

  // Rows of one table after those of another, as the tables were read.
  predicate Grouped(rows: seq<Entry>) {
    forall a, b :: 0 <= a < b < |rows| ==> rows[a].capture <= rows[b].capture
  }

  lemma {:induction false} ReadTablesGrouped(db: SourceDb, i: nat, start: Lsn, batchSize: nat, faults: seq<ReadFault>,
                                             acc: seq<Entry>)
    requires i <= |db.captures| && Grouped(acc) && forall e :: e in acc ==> e.capture < i
    ensures Grouped(ReadTables(db, i, start, batchSize, faults, acc))
    decreases |db.captures| - i
  {
    if i < |db.captures| {
      if FaultAt(faults, i).Skipped? {
        ReadTablesGrouped(db, i + 1, start, batchSize, faults, acc);
      } else {
        WindowRows(db, i, start, batchSize);
        var acc' := acc + Part(db, i, start, batchSize, faults);
        forall a, b | 0 <= a < b < |acc'|
          ensures acc'[a].capture <= acc'[b].capture
        {
          assert a < |acc| ==> acc[a] in acc;
        }
        if |acc'| < batchSize { ReadTablesGrouped(db, i + 1, start, batchSize, faults, acc'); }
      }
    }
  }

  lemma {:induction false} GroupedFilter(f: Entry -> bool, rows: seq<Entry>)
    requires Grouped(rows)
    ensures Grouped(Filter(f, rows))
  {
    if rows != [] {
      GroupedFilter(f, rows[1..]);
      forall e | e in Filter(f, rows[1..])
        ensures rows[0].capture <= e.capture
      {
        FilterMember(f, rows[1..], e);
      }
    }
  }

  // The last of grouped rows is the last one of the last table that has any.
  lemma LastOfGroups(rows: seq<Entry>, k: nat)
    requires Grouped(rows) && Of(rows, k) != [] && forall j: nat :: k < j ==> Of(rows, j) == []
    ensures rows != [] && rows[|rows| - 1] == Of(rows, k)[|Of(rows, k)| - 1]
  {
    var of := Of(rows, k);
    FilterMember((e: Entry) => e.capture == k, rows, of[0]);
    var n := |rows| - 1;
    var e := rows[n];
    FilterMember((x: Entry) => x.capture == e.capture, rows, e);
    assert Of(rows, e.capture) != [] && e.capture <= k;
    var a :| 0 <= a < |rows| && rows[a] == of[0];
    assert e.capture == k;
    assert rows == rows[..n] + [e] && [e][1..] == [];
    FilterConcat((x: Entry) => x.capture == k, rows[..n], [e]);
  }

  predicate Counts(cfg: Config, source: string, db: SourceDb, tracked: bool, i: nat)
    requires i < |db.captures|
  {
    tracked ==> TargetOf(cfg, source, db.captures[i]).Some?
  }

  // The last of the first n tables, or of the tracked ones among them, that the poll will return rows of.
  function LastRead(cfg: Config, source: string, db: SourceDb, from: Lsn, faults: seq<ReadFault>, tracked: bool, n: nat)
    : (k: Option<nat>)
    requires n <= |db.captures|
    ensures k.Some? ==> && k.value < n && Counts(cfg, source, db, tracked, k.value)
                        && RowsAhead(db, from, cfg.batchSize, faults, k.value) > 0
    ensures forall j :: 0 <= j < n && Counts(cfg, source, db, tracked, j) && (k.Some? ==> k.value < j)
                        ==> RowsAhead(db, from, cfg.batchSize, faults, j) == 0
  {
    if n == 0 then None
    else if Counts(cfg, source, db, tracked, n - 1) && RowsAhead(db, from, cfg.batchSize, faults, n - 1) > 0
    then Some(n - 1)
    else LastRead(cfg, source, db, from, faults, tracked, n - 1)
  }

  // Where the cursor will go: to the last tracked row, else to the last row, else to the maximum LSN.
  function PositionAhead(cfg: Config, source: string, db: SourceDb, from: Lsn, faults: seq<ReadFault>): Option<int> {
    var n := |db.captures|;
    match LastRead(cfg, source, db, from, faults, true, n)
    case Some(k) => Some(LastLsnOf(cfg, db, from, faults, k))
    case None =>
      match LastRead(cfg, source, db, from, faults, false, n)
      case Some(k) => Some(LastLsnOf(cfg, db, from, faults, k))
      case None => if Starts(db, from) then Some(Pos(db.maxLsn)) else None
  }

  function LastLsnOf(cfg: Config, db: SourceDb, from: Lsn, faults: seq<ReadFault>, k: nat): int
    requires RowsAhead(db, from, cfg.batchSize, faults, k) > 0
  {
    Value(Beyond(db, Pos(from), k)[RowsAhead(db, from, cfg.batchSize, faults, k) - 1].lsn)
  }

  // Of every tracked table the first row that will not come back lies beyond where the cursor will go.
  predicate ClosedAhead(cfg: Config, source: string, db: SourceDb, from: Lsn, faults: seq<ReadFault>) {
    var position := PositionAhead(cfg, source, db, from, faults);
    position.Some? ==>
      forall i :: 0 <= i < |db.captures| && Counts(cfg, source, db, true, i)
                  ==> UnreadBeyond(cfg, db, from, faults, i, position.value)
  }

  predicate UnreadBeyond(cfg: Config, db: SourceDb, from: Lsn, faults: seq<ReadFault>, i: nat, position: int) {
    var all, n := Beyond(db, Pos(from), i), RowsAhead(db, from, cfg.batchSize, faults, i);
    n == |all| || Value(all[n].lsn) > position
  }

  // ---------- the poll is closed exactly then ----------

  // What is known of some of a poll's rows: those of all its tables, or of the tracked ones.
  ghost predicate RowsOfPoll(cfg: Config, source: string, db: SourceDb, from: Lsn, faults: seq<ReadFault>,
                             tracked: bool, rows: seq<Entry>) {
    && Grouped(rows)
    && (forall e :: e in rows ==> e.capture < |db.captures| && Counts(cfg, source, db, tracked, e.capture))
    && (forall i :: 0 <= i < |db.captures| && Counts(cfg, source, db, tracked, i)
                    ==> Of(rows, i) == Beyond(db, Pos(from), i)[..RowsAhead(db, from, cfg.batchSize, faults, i)])
  }

  lemma PolledRows(cfg: Config, source: string, db: SourceDb, from: Lsn, faults: seq<ReadFault>)
    requires WellFormed(db) && GoodCursor(db, from)
    ensures RowsOfPoll(cfg, source, db, from, faults, false, Poll(db, from, cfg.batchSize, faults).entries)
  {
    var rows := Poll(db, from, cfg.batchSize, faults).entries;
    if Starts(db, from) {
      ReadTablesGrouped(db, 0, StartLsn(db, from), cfg.batchSize, faults, []);
      ReadTablesShape(db, 0, StartLsn(db, from), cfg.batchSize, faults, [], 0);
    }
    forall i | 0 <= i < |db.captures|
      ensures Of(rows, i) == Beyond(db, Pos(from), i)[..RowsAhead(db, from, cfg.batchSize, faults, i)]
    {
      PollAhead(db, from, cfg.batchSize, faults, i);
    }
  }

  lemma TrackedRows(cfg: Config, source: string, db: SourceDb, from: Lsn, faults: seq<ReadFault>, rows: seq<Entry>)
    requires RowsOfPoll(cfg, source, db, from, faults, false, rows)
    ensures RowsOfPoll(cfg, source, db, from, faults, true, Tracked(cfg, source, db.captures, rows))
  {
    var f := (e: Entry) => IsTracked(cfg, source, db.captures, e);
    GroupedFilter(f, rows);
    forall e | e in Tracked(cfg, source, db.captures, rows)
      ensures e.capture < |db.captures| && Counts(cfg, source, db, true, e.capture)
    {
      FilterMember(f, rows, e);
    }
    forall i | 0 <= i < |db.captures| && Counts(cfg, source, db, true, i)
      ensures Of(Tracked(cfg, source, db.captures, rows), i) == Of(rows, i)
    {
      TrackedOf(cfg, source, db.captures, rows, i);
    }
  }

  lemma OfSomeTable(rows: seq<Entry>, e: Entry)
    requires e in rows
    ensures Of(rows, e.capture) != []
  {
    FilterMember((x: Entry) => x.capture == e.capture, rows, e);
  }

  lemma NoneForeseen(cfg: Config, source: string, db: SourceDb, from: Lsn, faults: seq<ReadFault>, tracked: bool,
                     rows: seq<Entry>, j: nat)
    requires RowsOfPoll(cfg, source, db, from, faults, tracked, rows)
    requires var k := LastRead(cfg, source, db, from, faults, tracked, |db.captures|); k.Some? ==> k.value < j
    ensures Of(rows, j) == []
  {
    if Of(rows, j) != [] {
      FilterMember((e: Entry) => e.capture == j, rows, Of(rows, j)[0]);
    }
  }

  // Their last one is the one foreseen.
  lemma LastForeseen(cfg: Config, source: string, db: SourceDb, from: Lsn, faults: seq<ReadFault>, tracked: bool,
                     rows: seq<Entry>)
    requires RowsOfPoll(cfg, source, db, from, faults, tracked, rows)
    ensures var k := LastRead(cfg, source, db, from, faults, tracked, |db.captures|);
            && (rows == [] <==> k.None?)
            && (k.Some? ==> Value(rows[|rows| - 1].lsn) == LastLsnOf(cfg, db, from, faults, k.value))
  {
    var k := LastRead(cfg, source, db, from, faults, tracked, |db.captures|);
    if rows != [] {
      OfSomeTable(rows, rows[0]);
      if k.None? { NoneForeseen(cfg, source, db, from, faults, tracked, rows, rows[0].capture); }
    }
    if k.Some? {
      forall j: nat | k.value < j
        ensures Of(rows, j) == []
      {
        NoneForeseen(cfg, source, db, from, faults, tracked, rows, j);
      }
      LastOfGroups(rows, k.value);
    }
  }

  lemma CoversForeseen(cfg: Config, source: string, db: SourceDb, from: Lsn, faults: seq<ReadFault>, rows: seq<Entry>,
                       position: int)
    requires WellFormed(db) && RowsOfPoll(cfg, source, db, from, faults, true, rows)
    ensures Covers(cfg, source, db, Pos(from), rows, position)
            <==> forall i :: 0 <= i < |db.captures| && Counts(cfg, source, db, true, i)
                             ==> UnreadBeyond(cfg, db, from, faults, i, position)
  {
    forall i | 0 <= i < |db.captures| && Counts(cfg, source, db, true, i)
      ensures CoversTable(db.log, Pos(from), rows, position, i) <==> UnreadBeyond(cfg, db, from, faults, i, position)
    {
      CoversIff(db.log, Pos(from), rows, position, i);
    }
  }

  // A poll is closed if and only if, counting off the rows beyond the cursor as the tables will be read, no tracked
  // table keeps back a row at or before the one the cursor will go to.
  lemma ClosedAheadIff(cfg: Config, source: string, db: SourceDb, from: Lsn, faults: seq<ReadFault>)
    requires WellFormed(db) && GoodCursor(db, from)
    ensures ClosedPoll(cfg, source, db, Pos(from), Poll(db, from, cfg.batchSize, faults))
            <==> ClosedAhead(cfg, source, db, from, faults)
  {
    var r := Poll(db, from, cfg.batchSize, faults);
    var valid := Tracked(cfg, source, db.captures, r.entries);
    PolledRows(cfg, source, db, from, faults);
    TrackedRows(cfg, source, db, from, faults, r.entries);
    LastForeseen(cfg, source, db, from, faults, false, r.entries);
    LastForeseen(cfg, source, db, from, faults, true, valid);
    var position := PositionAhead(cfg, source, db, from, faults);
    if position.Some? { CoversForeseen(cfg, source, db, from, faults, valid, position.value); }
  }
}
