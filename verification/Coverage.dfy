// What a cursor may skip: which rows a poll returns, set against the rows beyond the cursor.
module Coverage {
  import opened Lsn
  import opened Sequences
  import opened Source

  // ---------- a poll returns, table by table, a prefix of what lies beyond the cursor ----------

  predicate GoodCursor(db: SourceDb, from: Lsn) {
    from == [] || (|from| == LSN_BYTES && Value(from) <= Pos(db.maxLsn))
  }

  // The start of a poll is the least LSN beyond the cursor that a row can have.
  lemma StartIsNext(db: SourceDb, from: Lsn)
    requires WellFormed(db) && GoodCursor(db, from)
    ensures StartLsn(db, from) != [] ==> |StartLsn(db, from)| == LSN_BYTES
    ensures from != [] ==> Pos(StartLsn(db, from)) == Pos(from) + 1
    ensures forall e :: e in db.log && Value(e.lsn) > Pos(from)
                        ==> StartLsn(db, from) != [] && Value(e.lsn) >= Pos(StartLsn(db, from))
  {
    if from != [] {
      IncrementIsSuccessor(from);
    } else {
      MinLsnLength(db.captures);
      forall e | e in db.log
        ensures StartLsn(db, from) != [] && Value(e.lsn) >= Pos(StartLsn(db, from))
      {
        MinLsnBelow(db.captures, e.capture);
      }
    }
  }

  // A poll reports the maximum LSN unless there is none, or there is no cursor yet and no table has a minimum to
  // start from; then it returns nothing either.
  lemma PollReports(db: SourceDb, from: Lsn, batchSize: nat, faults: seq<ReadFault>)
    requires WellFormed(db) && GoodCursor(db, from)
    ensures var r := Poll(db, from, batchSize, faults);
            var nowhere := || db.maxLsn == []
                           || (from == [] && forall c :: c in db.captures ==> c.minLsn == [] || Value(c.minLsn) == 0);
            r.maxLsn == (if nowhere then [] else db.maxLsn) && (nowhere ==> r.entries == [])
  {
    StartIsNext(db, from);
    MinLsnIsLeast(db.captures);
  }

  lemma RowsFromIsAfter(db: SourceDb, from: Lsn, i: nat)
    requires WellFormed(db) && GoodCursor(db, from) && i < |db.captures| && StartLsn(db, from) != []
    ensures RowsFrom(db, i, EffectiveLsn(StartLsn(db, from), db.captures[i].minLsn)) == Of(After(db.log, Pos(from)), i)
  {
    var start := StartLsn(db, from);
    StartIsNext(db, from);
    ClampKeepsRows(db, i, start);
    RowsFromAsFilters(db.log, i, start, Pos(from));
  }

  lemma {:induction false} RowsFromAsFilters(log: seq<Entry>, i: nat, start: Lsn, pos: int)
    requires forall e :: e in log ==> (Value(e.lsn) >= Value(start) <==> Value(e.lsn) > pos)
    ensures Filter((e: Entry) => e.capture == i && Value(e.lsn) >= Value(start), log) == Of(After(log, pos), i)
  {
    if log != [] {
      RowsFromAsFilters(log[1..], i, start, pos);
      var rest := After(log[1..], pos);
      assert ([log[0]] + rest)[1..] == rest;
      assert log[0] in log;
    }
  }

  // Of every table, a poll returns the first rows beyond the cursor, up to its window.
  lemma PollPrefix(db: SourceDb, from: Lsn, batchSize: nat, faults: seq<ReadFault>, i: nat)
    requires WellFormed(db) && GoodCursor(db, from) && i < |db.captures|
    ensures Of(Poll(db, from, batchSize, faults).entries, i) <= Of(After(db.log, Pos(from)), i)
  {
    var start := StartLsn(db, from);
    if db.maxLsn != [] && start != [] {
      ReadTablesShape(db, 0, start, batchSize, faults, [], i);
      RowsFromIsAfter(db, from, i);
    }
  }

  // Nothing a poll returns lies at or before the cursor, and all of it is in the log.
  lemma PollBeyondCursor(db: SourceDb, from: Lsn, batchSize: nat, faults: seq<ReadFault>, e: Entry)
    requires WellFormed(db) && GoodCursor(db, from) && e in Poll(db, from, batchSize, faults).entries
    ensures e in After(db.log, Pos(from)) && e in db.log && Pos(from) < Value(e.lsn) <= Pos(db.maxLsn)
  {
    var r := Poll(db, from, batchSize, faults).entries;
    ReadTablesShape(db, 0, StartLsn(db, from), batchSize, faults, [], e.capture);
    assert e.capture < |db.captures|;
    PollPrefix(db, from, batchSize, faults, e.capture);
    FilterMember((x: Entry) => x.capture == e.capture, r, e);
    assert e in Of(After(db.log, Pos(from)), e.capture);
    FilterMember((x: Entry) => x.capture == e.capture, After(db.log, Pos(from)), e);
    FilterMember((x: Entry) => Value(x.lsn) > Pos(from), db.log, e);
  }

  // ---------- coverage ----------

  // Moving the cursor from `pos` to `newPos` is covered by `rows` for one table if everything the
  // table has in between is, in order, the beginning of what `rows` holds of it.
  predicate CoversTable(log: seq<Entry>, pos: int, rows: seq<Entry>, newPos: int, i: nat) {
    UpTo(Of(After(log, pos), i), newPos) <= Of(rows, i)
  }

  // The condition one can check before moving the cursor: the first row of the table that was not
  // returned, if there is one, lies beyond the new position.
  predicate FirstUnreadBeyond(log: seq<Entry>, pos: int, rows: seq<Entry>, newPos: int, i: nat) {
    var all, got := Of(After(log, pos), i), Of(rows, i);
    |got| >= |all| || Value(all[|got|].lsn) > newPos
  }

  // The cursor move is covered if and only if the first unread row lies beyond it.
  lemma CoversIff(log: seq<Entry>, pos: int, rows: seq<Entry>, newPos: int, i: nat)
    requires Sorted(log) && Of(rows, i) <= Of(After(log, pos), i)
    ensures CoversTable(log, pos, rows, newPos, i) <==> FirstUnreadBeyond(log, pos, rows, newPos, i)
  {
    var all, got := Of(After(log, pos), i), Of(rows, i);
    SortedFilter((e: Entry) => Value(e.lsn) > pos, log);
    SortedFilter((e: Entry) => e.capture == i, After(log, pos));
    SortedSplit(all, newPos);
    var early, late := UpTo(all, newPos), After(all, newPos);
    if |got| < |all| {
      if |got| < |early| {
        assert all[|got|] == early[|got|];
        FilterMember((e: Entry) => Value(e.lsn) <= newPos, all, early[|got|]);
      } else {
        assert all[|got|] == late[|got| - |early|];
        FilterMember((e: Entry) => Value(e.lsn) > newPos, all, all[|got|]);
        assert got[..|early|] == early;
      }
    } else {
      assert got == all;
    }
  }

  // ---------- two conditions under which a poll covers its own cursor ----------

  // (a) A single table with rows beyond the cursor: the poll covers its own last LSN if and only if the window
  // does not end between two rows of one LSN.
  lemma SingleTableCovers(db: SourceDb, from: Lsn, batchSize: nat)
    requires WellFormed(db) && GoodCursor(db, from) && |db.captures| == 1 && batchSize > 0
    requires Of(After(db.log, Pos(from)), 0) != []
    ensures Poll(db, from, batchSize, []).entries != []
    ensures var all, r := Of(After(db.log, Pos(from)), 0), Poll(db, from, batchSize, []).entries;
            CoversTable(db.log, Pos(from), r, Value(r[|r| - 1].lsn), 0)
            <==> (|all| > batchSize ==> Value(all[batchSize - 1].lsn) < Value(all[batchSize].lsn))
  {
    var r := Poll(db, from, batchSize, []).entries;
    if db.maxLsn == [] || StartLsn(db, from) == [] {
      NothingAfter(db, from);
    }
    SingleTableWindow(db, from, batchSize);
    PollPrefix(db, from, batchSize, [], 0);
    CoversIff(db.log, Pos(from), r, Value(r[|r| - 1].lsn), 0);
  }

  lemma SingleTableWindow(db: SourceDb, from: Lsn, batchSize: nat)
    requires WellFormed(db) && GoodCursor(db, from) && |db.captures| == 1
    requires db.maxLsn != [] && StartLsn(db, from) != []
    ensures var r := Poll(db, from, batchSize, []).entries;
            r == Take(Of(After(db.log, Pos(from)), 0), batchSize) && Of(r, 0) == r
  {
    var start := StartLsn(db, from);
    var w := Window(db, 0, start, batchSize);
    RowsFromIsAfter(db, from, 0);
    assert [] + w == w;
    assert ReadTables(db, 1, start, batchSize, [], w) == w;
    WindowRows(db, 0, start, batchSize);
    OfOther(w, 0, 0);
  }

  lemma {:induction false} CountSplit(log: seq<Entry>, i: nat)
    ensures |Filter((e: Entry) => e.capture < i + 1, log)| == |Filter((e: Entry) => e.capture < i, log)| + |Of(log, i)|
  {
    if log != [] {
      CountSplit(log[1..], i);
    }
  }

  lemma {:induction false} ReadTablesComplete(db: SourceDb, from: Lsn, i: nat, batchSize: nat, faults: seq<ReadFault>,
                                              acc: seq<Entry>, capture: nat)
    requires WellFormed(db) && GoodCursor(db, from) && StartLsn(db, from) != []
    requires |After(db.log, Pos(from))| < batchSize
    requires i <= capture < |db.captures| && FaultAt(faults, capture).Healthy?
    requires forall e :: e in acc ==> e.capture < i
    requires |acc| <= |Filter((e: Entry) => e.capture < i, After(db.log, Pos(from)))|
    ensures Of(ReadTables(db, i, StartLsn(db, from), batchSize, faults, acc), capture)
            == Of(After(db.log, Pos(from)), capture)
    decreases |db.captures| - i
  {
    var start := StartLsn(db, from);
    var part := if FaultAt(faults, i).Skipped? then [] else Part(db, i, start, batchSize, faults);
    CountSplit(After(db.log, Pos(from)), i);
    RowsFromIsAfter(db, from, i);
    WindowRows(db, i, start, batchSize);
    assert acc + [] == acc && |acc + part| < batchSize;
    if i < capture {
      ReadTablesComplete(db, from, i + 1, batchSize, faults, acc + part, capture);
    } else {
      FilterConcat((e: Entry) => e.capture == capture, acc, part);
      NoneOf(acc, capture);
      OfOther(part, i, capture);
      ReadTablesShape(db, i + 1, start, batchSize, faults, acc + part, capture);
    }
  }

  // (b) Fewer rows beyond the cursor than fit in a batch, and no failure reading this table:
  // the table is returned completely, so any cursor move is covered.
  lemma SmallPollCovers(db: SourceDb, from: Lsn, batchSize: nat, faults: seq<ReadFault>, i: nat, newPos: int)
    requires WellFormed(db) && GoodCursor(db, from) && i < |db.captures|
    requires |After(db.log, Pos(from))| < batchSize && FaultAt(faults, i).Healthy?
    ensures Of(Poll(db, from, batchSize, faults).entries, i) == Of(After(db.log, Pos(from)), i)
    ensures CoversTable(db.log, Pos(from), Poll(db, from, batchSize, faults).entries, newPos, i)
  {
    var r, all := Poll(db, from, batchSize, faults).entries, Of(After(db.log, Pos(from)), i);
    if db.maxLsn != [] && StartLsn(db, from) != [] {
      ReadTablesComplete(db, from, 0, batchSize, faults, [], i);
    } else {
      StartIsNext(db, from);
      NothingAfter(db, from);
    }
    CoversIff(db.log, Pos(from), r, newPos, i);
  }

  lemma {:induction false} ShortReadIsComplete(db: SourceDb, i: nat, start: Lsn, batchSize: nat, faults: seq<ReadFault>,
                                               acc: seq<Entry>, capture: nat)
    requires i <= capture < |db.captures| && FaultAt(faults, capture).Healthy? && forall e :: e in acc ==> e.capture < i
    requires |ReadTables(db, i, start, batchSize, faults, acc)| < batchSize
    ensures Of(ReadTables(db, i, start, batchSize, faults, acc), capture)
            == RowsFrom(db, capture, EffectiveLsn(start, db.captures[capture].minLsn))
    decreases |db.captures| - i
  {
    if FaultAt(faults, i).Skipped? {
      ShortReadIsComplete(db, i + 1, start, batchSize, faults, acc, capture);
    } else {
      var part := Part(db, i, start, batchSize, faults);
      WindowRows(db, i, start, batchSize);
      if i < capture {
        ShortReadIsComplete(db, i + 1, start, batchSize, faults, acc + part, capture);
      } else {
        FilterConcat((e: Entry) => e.capture == capture, acc, part);
        NoneOf(acc, capture);
        OfOther(part, i, capture);
        ReadTablesShape(db, i + 1, start, batchSize, faults, acc + part, capture);
      }
    }
  }

  // The same, judged by what came back: a poll shorter than a batch holds every table that was read without
  // failure completely.
  lemma ShortPollCovers(db: SourceDb, from: Lsn, batchSize: nat, faults: seq<ReadFault>, i: nat, newPos: int)
    requires WellFormed(db) && GoodCursor(db, from) && i < |db.captures|
    requires |Poll(db, from, batchSize, faults).entries| < batchSize && FaultAt(faults, i).Healthy?
    ensures Of(Poll(db, from, batchSize, faults).entries, i) == Of(After(db.log, Pos(from)), i)
    ensures CoversTable(db.log, Pos(from), Poll(db, from, batchSize, faults).entries, newPos, i)
  {
    if db.maxLsn != [] && StartLsn(db, from) != [] {
      ShortReadIsComplete(db, 0, StartLsn(db, from), batchSize, faults, [], i);
      RowsFromIsAfter(db, from, i);
    } else {
      NothingAfter(db, from);
    }
    CoversIff(db.log, Pos(from), Poll(db, from, batchSize, faults).entries, newPos, i);
  }

  lemma NothingAfter(db: SourceDb, from: Lsn)
    requires WellFormed(db) && GoodCursor(db, from)
    requires db.maxLsn == [] || StartLsn(db, from) == []
    ensures After(db.log, Pos(from)) == []
  {
    StartIsNext(db, from);
    FilterAll((e: Entry) => Value(e.lsn) > Pos(from), db.log);
  }
}
