// Safe replay: every safe step keeps the invariant of the replication protocol.
module Safety {
  import opened Lsn
  import opened Replica
  import opened Sequences
  import opened Source
  import opened Coverage
  import opened Cursors
  import opened Protocol
  import opened Replay
  import opened Invariant

  // ---------- moving cursors ----------

  lemma UpdateMovesOne(c: Cursors, source: string, batchId: string, lsn: Lsn)
    ensures Acked(UpdateCursor(c, source, batchId, lsn), source) == lsn
            == PollCursor(UpdateCursor(c, source, batchId, lsn), source)
    ensures forall s :: s != source ==> Acked(UpdateCursor(c, source, batchId, lsn), s) == Acked(c, s)
    ensures forall s :: s != source ==> PollCursor(UpdateCursor(c, source, batchId, lsn), s) == PollCursor(c, s)
  {
  }

  lemma UpdateStands(dbs: Databases, c: Cursors, source: string, batchId: string, lsn: Lsn)
    requires Standing(dbs, c) && source in dbs
    requires |lsn| == LSN_BYTES && AckedPos(c, source) <= Value(lsn) <= Pos(dbs[source].maxLsn)
    ensures Standing(dbs, UpdateCursor(c, source, batchId, lsn))
    ensures Behind(dbs, c, UpdateCursor(c, source, batchId, lsn))
  {
    var c' := UpdateCursor(c, source, batchId, lsn);
    UpdateMovesOne(c, source, batchId, lsn);
    forall s | s in dbs
      ensures GoodCursor(dbs[s], Acked(c', s)) && GoodCursor(dbs[s], PollCursor(c', s))
      ensures AckedPos(c, s) <= AckedPos(c', s)
    {
      assert GoodCursor(dbs[s], Acked(c, s)) && GoodCursor(dbs[s], PollCursor(c, s));
    }
  }

  // Cursors that no source's moved back may be kept in memory and, if the save works, on disk.
  lemma SaveStands(dbs: Databases, mem: Cursors, disk: Cursors, c: Cursors, saved: bool)
    requires GoodCursors(dbs, mem, disk) && Standing(dbs, c) && Behind(dbs, mem, c)
    ensures GoodCursors(dbs, c, if saved then c else disk)
  {
  }

  lemma FarAfterUpdate(c: Cursors, reach: Reach, source: string, batchId: string, lsn: Lsn)
    ensures Far(UpdateCursor(c, source, batchId, lsn), reach, source) == Later(lsn, Reached(reach, source))
    ensures forall s :: s != source ==> Far(UpdateCursor(c, source, batchId, lsn), reach, s) == Far(c, reach, s)
  {
    UpdateMovesOne(c, source, batchId, lsn);
  }

  // The poll position never lies behind the acknowledged one.
  lemma PollIsBeyondAcked(c: Cursors, source: string)
    ensures AckedPos(c, source) <= Pos(PollCursor(c, source))
  {
  }

  lemma SameFarReplays(cfg: Config, dbs: Databases, mem: Cursors, mem': Cursors, reach: Reach, target: DB, initial: DB)
    requires GoodDatabases(cfg, dbs) && FarReplays(cfg, dbs, mem, reach, target, initial)
    requires forall source :: source in dbs ==> Pos(Far(mem', reach, source)) <= Pos(Far(mem, reach, source))
    ensures FarReplays(cfg, dbs, mem', reach, target, initial)
  {
    FarAcked(mem, reach);
    FarIs(cfg, dbs, mem', reach, target, initial, FarCursors(mem, reach));
  }

  lemma LastLsnIsLast(rows: seq<Entry>)
    requires rows != [] && rows[|rows| - 1].lsn != []
    ensures LastLsn(rows) == rows[|rows| - 1].lsn
  {
  }

  // ---------- one event: a poll ----------

  lemma TrackedOf(cfg: Config, source: string, captures: seq<Capture>, rows: seq<Entry>, i: nat)
    requires i < |captures| && TargetOf(cfg, source, captures[i]).Some?
    ensures Of(Tracked(cfg, source, captures, rows), i) == Of(rows, i)
  {
    var f, g := (e: Entry) => e.capture == i, (e: Entry) => IsTracked(cfg, source, captures, e);
    FilterCommutes(f, g, rows);
    forall e | e in Of(rows, i)
      ensures IsTracked(cfg, source, captures, e)
    {
      FilterMember(f, rows, e);
    }
    FilterAll(g, Of(rows, i));
  }

  // What a poll from a position can return: rows beyond it, a prefix of every table's, and the
  // maximum LSN if any.
  predicate PollFrom(db: SourceDb, pos: int, r: PollResult) {
    && (forall e :: e in r.entries ==> e in After(db.log, pos) && e in db.log)
    && (forall e :: e in r.entries ==> |e.lsn| == LSN_BYTES && pos < Value(e.lsn) <= Pos(db.maxLsn))
    && (forall i :: 0 <= i < |db.captures| ==> Of(r.entries, i) <= Of(After(db.log, pos), i))
    && (r.maxLsn == [] || r.maxLsn == db.maxLsn)
  }

  lemma PollIsFrom(db: SourceDb, from: Lsn, batchSize: nat, faults: seq<ReadFault>)
    requires WellFormed(db) && GoodCursor(db, from)
    ensures PollFrom(db, Pos(from), Poll(db, from, batchSize, faults))
  {
    var r := Poll(db, from, batchSize, faults);
    forall e | e in r.entries
      ensures e in After(db.log, Pos(from)) && e in db.log && |e.lsn| == LSN_BYTES
      ensures Pos(from) < Value(e.lsn) <= Pos(db.maxLsn)
    {
      PollBeyondCursor(db, from, batchSize, faults, e);
      assert GoodEntry(db, e);
    }
    forall i | 0 <= i < |db.captures|
      ensures Of(r.entries, i) <= Of(After(db.log, Pos(from)), i)
    {
      PollPrefix(db, from, batchSize, faults, i);
    }
  }

  // Where a poll moves the cursor, and the rows that move stands for.
  function PollRows(cfg: Config, source: string, db: SourceDb, r: PollResult): seq<Entry> {
    Tracked(cfg, source, db.captures, r.entries)
  }

  function PollTo(cfg: Config, source: string, db: SourceDb, r: PollResult): int {
    var valid := PollRows(cfg, source, db, r);
    if r.entries == [] then Pos(r.maxLsn)
    else if valid == [] then Value(r.entries[|r.entries| - 1].lsn)
    else Value(valid[|valid| - 1].lsn)
  }

  lemma PollToIsBeyond(cfg: Config, source: string, db: SourceDb, from: int, r: PollResult)
    requires PollFrom(db, from, r) && (r.entries != [] || r.maxLsn != [])
    ensures PollTo(cfg, source, db, r) > from || PollTo(cfg, source, db, r) == Pos(db.maxLsn)
  {
    if r.entries != [] {
      var valid := PollRows(cfg, source, db, r);
      var last := if valid == [] then r.entries[|r.entries| - 1] else valid[|valid| - 1];
      FilterMember((x: Entry) => IsTracked(cfg, source, db.captures, x), r.entries, last);
      assert last in r.entries;
    }
  }

  // A closed poll leaves nothing of a tracked table between the confirmed position and its own start.
  lemma NoneBetween(cfg: Config, source: string, db: SourceDb, base: int, from: int, r: PollResult, i: nat, e: Entry)
    requires WellFormed(db) && PollFrom(db, from, r) && i < |db.captures|
    requires TargetOf(cfg, source, db.captures[i]).Some? && ClosedPoll(cfg, source, db, base, r)
    requires r.entries != [] || r.maxLsn != []
    requires e in Of(After(db.log, base), i)
    ensures Value(e.lsn) > from
  {
    var rows, newPos := PollRows(cfg, source, db, r), PollTo(cfg, source, db, r);
    var beyond := Of(After(db.log, base), i);
    FilterMember((x: Entry) => x.capture == i, After(db.log, base), e);
    FilterMember((x: Entry) => Value(x.lsn) > base, db.log, e);
    assert GoodEntry(db, e);
    PollToIsBeyond(cfg, source, db, from, r);
    assert r.entries == [] ==> rows == [];
    assert CoversTable(db.log, base, rows, newPos, i);
    FilterMember((x: Entry) => Value(x.lsn) <= newPos, beyond, e);
    FilterMember((x: Entry) => x.capture == i, rows, e);
    FilterMember((x: Entry) => IsTracked(cfg, source, db.captures, x), r.entries, e);
  }

  // So it returns the same of every tracked table as one from there.
  lemma ClosedFromBase(cfg: Config, source: string, db: SourceDb, base: int, from: int, r: PollResult, i: nat)
    requires WellFormed(db) && base <= from && PollFrom(db, from, r) && i < |db.captures|
    requires TargetOf(cfg, source, db.captures[i]).Some? && ClosedPoll(cfg, source, db, base, r)
    requires r.entries != [] || r.maxLsn != []
    ensures Of(r.entries, i) <= Of(After(db.log, base), i)
  {
    var beyond := Of(After(db.log, base), i);
    AfterAfter(db.log, base, from);
    AfterOf(After(db.log, base), from, i);
    forall e | e in beyond
      ensures Value(e.lsn) > from
    {
      NoneBetween(cfg, source, db, base, from, r, i, e);
    }
    FilterAll((e: Entry) => Value(e.lsn) > from, beyond);
  }

  lemma PolledBatchIsGood(cfg: Config, source: string, db: SourceDb, base: int, from: int, r: PollResult)
    requires WellFormed(db) && base <= from && PollFrom(db, from, r) && ClosedPoll(cfg, source, db, base, r)
    requires Tracked(cfg, source, db.captures, r.entries) != []
    ensures GoodBatch(cfg, source, db, base, Tracked(cfg, source, db.captures, r.entries))
  {
    var rows := Tracked(cfg, source, db.captures, r.entries);
    forall e | e in rows
      ensures e in After(db.log, base) && e in db.log
    {
      FilterMember((x: Entry) => IsTracked(cfg, source, db.captures, x), r.entries, e);
      FilterMember((x: Entry) => Value(x.lsn) > base, db.log, e);
    }
    forall i | 0 <= i < |db.captures| && TargetOf(cfg, source, db.captures[i]).Some?
      ensures Of(rows, i) <= Of(After(db.log, base), i)
    {
      ClosedFromBase(cfg, source, db, base, from, r, i);
      TrackedOf(cfg, source, db.captures, r.entries, i);
    }
  }

  // A position that moves over nothing tracked.
  lemma MovesOverNothing(cfg: Config, dbs: Databases, c: Cursors, target: DB, initial: DB, source: string, from: Lsn,
                         to: Lsn)
    requires GoodDatabases(cfg, dbs) && source in dbs && Replays(cfg, dbs, c, target, initial)
    requires Pos(from) <= AckedPos(c, source) && Pos(from) <= Pos(to)
    requires Covers(cfg, source, dbs[source], Pos(from), [], Pos(to))
    ensures Replays(cfg, dbs, At(c, source, to), target, initial)
  {
    MoveBackAndOn(cfg, dbs, c, target, initial, source, from, [], to);
  }

  lemma LocalMoveOn(cfg: Config, dbs: Databases, mem: Cursors, mem': Cursors, reach: Reach, target: DB, initial: DB,
                    source: string, lsn: Lsn)
    requires GoodDatabases(cfg, dbs) && FarReplays(cfg, dbs, mem, reach, target, initial) && source in dbs
    requires Pos(Base(mem, reach, source)) <= Pos(lsn)
    requires Covers(cfg, source, dbs[source], Pos(Base(mem, reach, source)), [], Pos(lsn))
    requires Far(mem', reach, source) == Later(lsn, Reached(reach, source))
    requires forall other :: other != source ==> Far(mem', reach, other) == Far(mem, reach, other)
    ensures FarReplays(cfg, dbs, mem', reach, target, initial)
  {
    if Pos(lsn) >= Pos(Far(mem, reach, source)) {
      FarAcked(mem, reach);
      MovesOverNothing(cfg, dbs, FarCursors(mem, reach), target, initial, source, Base(mem, reach, source), lsn);
      FarMoved(cfg, dbs, mem, reach, mem', reach, target, initial, source, lsn);
    } else {
      SameFarReplays(cfg, dbs, mem, mem', reach, target, initial);
    }
  }

  lemma LocalMoveReplays(cfg: Config, dbs: Databases, mem: Cursors, reach: Reach, target: DB, initial: DB,
                         source: string, batchId: string, lsn: Lsn)
    requires GoodDatabases(cfg, dbs) && FarReplays(cfg, dbs, mem, reach, target, initial) && source in dbs
    requires Pos(Base(mem, reach, source)) <= Value(lsn) && lsn != []
    requires Covers(cfg, source, dbs[source], Pos(Base(mem, reach, source)), [], Value(lsn))
    ensures FarReplays(cfg, dbs, UpdateCursor(mem, source, batchId, lsn), reach, target, initial)
  {
    FarAfterUpdate(mem, reach, source, batchId, lsn);
    LocalMoveOn(cfg, dbs, mem, UpdateCursor(mem, source, batchId, lsn), reach, target, initial, source, lsn);
  }

  lemma LocalMoveSound(cfg: Config, s: System, reach: Reach, source: string, batchId: string, lsn: Lsn, saved: bool)
    requires Sound(cfg, s, reach) && s.phase.Idle? && source in s.dbs
    requires |lsn| == LSN_BYTES && AckedPos(s.mem, source) <= Value(lsn) <= Pos(s.dbs[source].maxLsn)
    ensures Sound(cfg, Save(s, UpdateCursor(s.mem, source, batchId, lsn), saved), reach)
  {
    UpdateStands(s.dbs, s.mem, source, batchId, lsn);
    SaveStands(s.dbs, s.mem, s.disk, UpdateCursor(s.mem, source, batchId, lsn), saved);
  }

  lemma RecordStands(dbs: Databases, c: Cursors, source: string, batchId: string, lsn: Lsn, count: nat)
    requires Standing(dbs, c) && source in dbs && GoodCursor(dbs[source], lsn)
    ensures Standing(dbs, RecordPendingBatch(c, source, batchId, lsn, count))
    ensures forall s :: Acked(RecordPendingBatch(c, source, batchId, lsn, count), s) == Acked(c, s)
    ensures Pos(PollCursor(c, source)) <= Pos(PollCursor(RecordPendingBatch(c, source, batchId, lsn, count), source))
  {
  }

  lemma RecordKeepsFrom(cfg: Config, dbs: Databases, mem: Cursors, reach: Reach, source: string, batchId: string,
                        lsn: Lsn,
                        rows: seq<Entry>)
    requires Standing(dbs, mem) && GoodReach(dbs, reach) && source in dbs && GoodCursor(dbs[source], lsn)
    requires GoodBatch(cfg, source, dbs[source], Pos(Base(mem, reach, source)), rows)
    ensures GoodFrom(cfg, dbs, RecordPendingBatch(mem, source, batchId, lsn, |rows|), reach, source, rows,
                     Base(mem, reach, source))
  {
    RecordStands(dbs, mem, source, batchId, lsn, |rows|);
    PollIsBeyondAcked(mem, source);
  }

  function Sent(s: System, source: string, batchId: string, lsn: Lsn, rows: seq<Entry>, saved: bool): System {
    Save(s, RecordPendingBatch(s.mem, source, batchId, lsn, |rows|), saved)
    .(phase := if saved then InFlight(source, batchId, rows) else Idle)
  }

  lemma BatchSound(cfg: Config, s: System, reach: Reach, source: string, batchId: string, lsn: Lsn, rows: seq<Entry>,
                   saved: bool)
    requires Sound(cfg, s, reach) && s.phase.Idle? && source in s.dbs && GoodCursor(s.dbs[source], lsn)
    requires GoodBatch(cfg, source, s.dbs[source], Pos(Base(s.mem, reach, source)), rows)
    ensures Sound(cfg, Sent(s, source, batchId, lsn, rows, saved), reach)
  {
    var mem := RecordPendingBatch(s.mem, source, batchId, lsn, |rows|);
    RecordStands(s.dbs, s.mem, source, batchId, lsn, |rows|);
    SaveStands(s.dbs, s.mem, s.disk, mem, saved);
    RecordKeepsFrom(cfg, s.dbs, s.mem, reach, source, batchId, lsn, rows);
  }

  lemma PollSound(cfg: Config, s: System, reach: Reach, source: string, r: PollResult, batchId: string, saved: bool)
    requires Sound(cfg, s, reach) && s.phase.Idle? && source in s.dbs && WellFormed(s.dbs[source])
    requires PollFrom(s.dbs[source], Pos(PollCursor(s.mem, source)), r)
    requires ClosedPoll(cfg, source, s.dbs[source], Pos(Base(s.mem, reach, source)), r)
    ensures Sound(cfg, AfterPoll(cfg, s, source, r, batchId, saved), reach)
  {
    var db := s.dbs[source];
    var valid := Tracked(cfg, source, db.captures, r.entries);
    PollIsBeyondAcked(s.mem, source);
    assert GoodCursor(db, PollCursor(s.mem, source));
    if r.entries == [] {
      if r.maxLsn != [] {
        LocalMoveSound(cfg, s, reach, source, "no-changes-" + batchId, r.maxLsn, saved);
      }
    } else {
      var last := r.entries[|r.entries| - 1];
      assert last in r.entries;
      if valid == [] {
        LocalMoveSound(cfg, s, reach, source, "local-skip-" + batchId, last.lsn, saved);
      } else {
        PolledBatchIsGood(cfg, source, db, Pos(Base(s.mem, reach, source)), Pos(PollCursor(s.mem, source)), r);
        BatchSound(cfg, s, reach, source, batchId, last.lsn, valid, saved);
      }
    }
  }

  lemma PollReplays(cfg: Config, s: System, reach: Reach, initial: DB, source: string, r: PollResult, batchId: string,
                    saved: bool)
    requires GoodDatabases(cfg, s.dbs) && Standing(s.dbs, s.mem) && source in s.dbs
    requires FarReplays(cfg, s.dbs, s.mem, reach, s.target, initial)
    requires PollFrom(s.dbs[source], Pos(PollCursor(s.mem, source)), r)
    requires ClosedPoll(cfg, source, s.dbs[source], Pos(Base(s.mem, reach, source)), r)
    ensures FarReplays(cfg, s.dbs, AfterPoll(cfg, s, source, r, batchId, saved).mem, reach, s.target, initial)
  {
    var db := s.dbs[source];
    assert GoodCursor(db, PollCursor(s.mem, source));
    if r.entries == [] {
      if r.maxLsn != [] {
        LocalMoveReplays(cfg, s.dbs, s.mem, reach, s.target, initial, source, "no-changes-" + batchId, r.maxLsn);
      }
    } else {
      var last := r.entries[|r.entries| - 1];
      assert last in r.entries;
      if Tracked(cfg, source, db.captures, r.entries) == [] {
        LocalMoveReplays(cfg, s.dbs, s.mem, reach, s.target, initial, source, "local-skip-" + batchId, last.lsn);
      } else {
        var valid := Tracked(cfg, source, db.captures, r.entries);
        var mem := RecordPendingBatch(s.mem, source, batchId, last.lsn, |valid|);
        RecordStands(s.dbs, s.mem, source, batchId, last.lsn, |valid|);
        SameFarReplays(cfg, s.dbs, s.mem, mem, reach, s.target, initial);
      }
    }
  }

  lemma PollKeepsInv(cfg: Config, s: System, reach: Reach, initial: DB, source: string, faults: seq<ReadFault>,
                     batchId: string, saved: bool)
    requires Inv(cfg, s, reach, initial) && s.phase.Idle? && source in s.dbs
    requires ClosedPoll(cfg, source, s.dbs[source], Pos(Base(s.mem, reach, source)), PollOf(cfg, s, source, faults))
    ensures Inv(cfg, AfterPoll(cfg, s, source, PollOf(cfg, s, source, faults), batchId, saved), reach, initial)
  {
    PollIsFrom(s.dbs[source], PollCursor(s.mem, source), cfg.batchSize, faults);
    PollSound(cfg, s, reach, source, PollOf(cfg, s, source, faults), batchId, saved);
    PollReplays(cfg, s, reach, initial, source, PollOf(cfg, s, source, faults), batchId, saved);
  }

  // ---------- one event: the log grows ----------

  function Appended(db: SourceDb, rows: seq<Entry>, maxLsn: Lsn): SourceDb {
    db.(log := db.log + rows, maxLsn := maxLsn)
  }

  // What Safe says of an append: later rows only, and the log stays well formed.
  predicate GoodAppend(db: SourceDb, rows: seq<Entry>, maxLsn: Lsn) {
    && WellFormed(Appended(db, rows, maxLsn))
    && Pos(db.maxLsn) <= Pos(maxLsn)
    && (forall e :: e in rows ==> Pos(db.maxLsn) < Value(e.lsn))
  }

  // Rows of one table appended later than the new position leave prefix and coverage alone.
  lemma AppendKeepsTable(log: seq<Entry>, pos: int, batch: seq<Entry>, newPos: int, rows: seq<Entry>, i: nat)
    requires Of(batch, i) <= Of(After(log, pos), i) && CoversTable(log, pos, batch, newPos, i)
    requires forall e :: e in rows ==> newPos < Value(e.lsn)
    ensures Of(batch, i) <= Of(After(log + rows, pos), i) && CoversTable(log + rows, pos, batch, newPos, i)
  {
    var late := Of(After(rows, pos), i);
    FilterConcat((e: Entry) => Value(e.lsn) > pos, log, rows);
    FilterConcat((e: Entry) => e.capture == i, After(log, pos), After(rows, pos));
    FilterConcat((e: Entry) => Value(e.lsn) <= newPos, Of(After(log, pos), i), late);
    forall e | e in late
      ensures Value(e.lsn) > newPos
    {
      FilterMember((x: Entry) => x.capture == i, After(rows, pos), e);
      FilterMember((x: Entry) => Value(x.lsn) > pos, rows, e);
    }
    FilterAll((e: Entry) => Value(e.lsn) <= newPos, late);
  }

  lemma AppendKeepsBatch(cfg: Config, source: string, db: SourceDb, pos: int, batch: seq<Entry>, rows: seq<Entry>,
                         maxLsn: Lsn)
    requires WellFormed(db) && GoodBatch(cfg, source, db, pos, batch)
    requires forall e :: e in rows ==> Pos(db.maxLsn) < Value(e.lsn)
    ensures GoodBatch(cfg, source, Appended(db, rows, maxLsn), pos, batch)
  {
    var db' := Appended(db, rows, maxLsn);
    var newPos := Value(batch[|batch| - 1].lsn);
    assert GoodEntry(db, batch[|batch| - 1]);
    FilterConcat((e: Entry) => Value(e.lsn) > pos, db.log, rows);
    forall i | 0 <= i < |db.captures| && TargetOf(cfg, source, db.captures[i]).Some?
      ensures Of(batch, i) <= Of(After(db'.log, pos), i) && CoversTable(db'.log, pos, batch, newPos, i)
    {
      assert CoversTable(db.log, pos, batch, newPos, i);
      AppendKeepsTable(db.log, pos, batch, newPos, rows, i);
    }
  }

  lemma BatchEnds(cfg: Config, source: string, db: SourceDb, pos: int, rows: seq<Entry>)
    requires WellFormed(db) && GoodBatch(cfg, source, db, pos, rows)
    ensures LastLsn(rows) == rows[|rows| - 1].lsn && |LastLsn(rows)| == LSN_BYTES
    ensures pos < Value(LastLsn(rows)) <= Pos(db.maxLsn)
  {
    var last := rows[|rows| - 1];
    assert last in rows && GoodEntry(db, last);
    FilterMember((e: Entry) => Value(e.lsn) > pos, db.log, last);
  }

  lemma AppendKeepsCursors(dbs: Databases, c: Cursors, reach: Reach, source: string, db': SourceDb)
    requires source in dbs && Pos(dbs[source].maxLsn) <= Pos(db'.maxLsn)
    ensures Standing(dbs, c) ==> Standing(dbs[source := db'], c)
    ensures GoodReach(dbs, reach) ==> GoodReach(dbs[source := db'], reach)
  {
  }

  lemma AppendKeepsDatabases(cfg: Config, dbs: Databases, source: string, rows: seq<Entry>, maxLsn: Lsn)
    requires GoodDatabases(cfg, dbs) && source in dbs && GoodAppend(dbs[source], rows, maxLsn)
    ensures GoodDatabases(cfg, dbs[source := Appended(dbs[source], rows, maxLsn)])
  {
    SameCapturesSameTargets(cfg, dbs, dbs[source := Appended(dbs[source], rows, maxLsn)]);
  }

  lemma AppendKeepsFar(cfg: Config, dbs: Databases, mem: Cursors, reach: Reach, target: DB, initial: DB, source: string,
                       rows: seq<Entry>, maxLsn: Lsn)
    requires GoodDatabases(cfg, dbs) && Standing(dbs, mem) && GoodReach(dbs, reach)
    requires source in dbs && GoodAppend(dbs[source], rows, maxLsn)
    requires FarReplays(cfg, dbs, mem, reach, target, initial)
    ensures FarReplays(cfg, dbs[source := Appended(dbs[source], rows, maxLsn)], mem, reach, target, initial)
  {
    FarAcked(mem, reach);
    AppendKeepsReplay(cfg, dbs, FarCursors(mem, reach), target, initial, source, rows, maxLsn);
  }

  lemma AppendKeepsPhase(cfg: Config, dbs: Databases, mem: Cursors, reach: Reach, phase: Phase, source: string,
                         rows: seq<Entry>, maxLsn: Lsn)
    requires GoodDatabases(cfg, dbs) && source in dbs && GoodAppend(dbs[source], rows, maxLsn)
    requires GoodPhase(cfg, dbs, mem, reach, phase)
    ensures GoodPhase(cfg, dbs[source := Appended(dbs[source], rows, maxLsn)], mem, reach, phase)
  {
    if phase.InFlight? {
      var from :| GoodFrom(cfg, dbs, mem, reach, phase.source, phase.rows, from);
      if phase.source == source {
        AppendKeepsBatch(cfg, source, dbs[source], Pos(from), phase.rows, rows, maxLsn);
      }
      assert GoodFrom(cfg, dbs[source := Appended(dbs[source], rows, maxLsn)], mem, reach, phase.source, phase.rows,
                      from);
    }
  }

  lemma AppendSound(cfg: Config, s: System, reach: Reach, source: string, rows: seq<Entry>, maxLsn: Lsn)
    requires GoodDatabases(cfg, s.dbs) && Sound(cfg, s, reach)
    requires source in s.dbs && GoodAppend(s.dbs[source], rows, maxLsn)
    ensures Sound(cfg, s.(dbs := s.dbs[source := Appended(s.dbs[source], rows, maxLsn)]), reach)
  {
    var db' := Appended(s.dbs[source], rows, maxLsn);
    AppendKeepsCursors(s.dbs, s.mem, reach, source, db');
    AppendKeepsCursors(s.dbs, s.disk, reach, source, db');
    AppendKeepsPhase(cfg, s.dbs, s.mem, reach, s.phase, source, rows, maxLsn);
  }

  lemma AppendKeepsInv(cfg: Config, s: System, reach: Reach, initial: DB, source: string, rows: seq<Entry>, maxLsn: Lsn)
    requires Inv(cfg, s, reach, initial) && source in s.dbs && GoodAppend(s.dbs[source], rows, maxLsn)
    ensures Inv(cfg, s.(dbs := s.dbs[source := Appended(s.dbs[source], rows, maxLsn)]), reach, initial)
  {
    AppendKeepsDatabases(cfg, s.dbs, source, rows, maxLsn);
    AppendSound(cfg, s, reach, source, rows, maxLsn);
    AppendKeepsFar(cfg, s.dbs, s.mem, reach, s.target, initial, source, rows, maxLsn);
  }

  // ---------- one event: commits and acknowledgments ----------

  lemma FarAfterReach(c: Cursors, reach: Reach, source: string, lsn: Lsn)
    requires AckedPos(c, source) <= Pos(lsn)
    ensures Pos(Far(c, reach[source := lsn], source)) == Pos(lsn)
    ensures forall other :: other != source ==> Far(c, reach[source := lsn], other) == Far(c, reach, other)
  {
  }

  lemma FarIsGood(dbs: Databases, c: Cursors, reach: Reach, source: string)
    requires Standing(dbs, c) && GoodReach(dbs, reach) && source in dbs
    ensures GoodCursor(dbs[source], Far(c, reach, source)) && GoodCursor(dbs[source], Base(c, reach, source))
    ensures AckedPos(c, source) <= Pos(Base(c, reach, source)) <= Pos(Far(c, reach, source))
  {
    PollIsBeyondAcked(c, source);
  }

  // A batch that is closed from a confirmed position takes the confirmed position to its last row.
  lemma CommitReplays(cfg: Config, dbs: Databases, mem: Cursors, reach: Reach, target: DB, initial: DB, source: string,
                      rows: seq<Entry>, from: Lsn)
    requires GoodDatabases(cfg, dbs) && FarReplays(cfg, dbs, mem, reach, target, initial)
    requires source in dbs && AckedPos(mem, source) <= Pos(from) <= Pos(Far(mem, reach, source))
    requires GoodBatch(cfg, source, dbs[source], Pos(from), rows)
    ensures FarReplays(cfg, dbs, mem, reach[source := LastLsn(rows)],
                       Apply(Writes(cfg, source, dbs[source].captures, rows), target), initial)
  {
    var lsn := LastLsn(rows);
    BatchEnds(cfg, source, dbs[source], Pos(from), rows);
    FarAcked(mem, reach);
    FarAfterReach(mem, reach, source, lsn);
    MoveBackAndOn(cfg, dbs, FarCursors(mem, reach), target, initial, source, from, rows, lsn);
    FarMoved(cfg, dbs, mem, reach, mem, reach[source := lsn],
             Apply(Writes(cfg, source, dbs[source].captures, rows), target), initial, source, lsn);
  }

  function Committed(cfg: Config, s: System): System
    requires s.phase.InFlight? && s.phase.source in s.dbs
  {
    s.(target := Apply(Writes(cfg, s.phase.source, s.dbs[s.phase.source].captures, s.phase.rows), s.target),
       phase := Confirmed(s.phase.source, s.phase.batchId, LastLsn(s.phase.rows)))
  }

  lemma CommitSound(cfg: Config, s: System, reach: Reach, source: string, rows: seq<Entry>, from: Lsn)
    requires Sound(cfg, s, reach) && s.phase.InFlight? && s.phase.source == source && s.phase.rows == rows
    requires GoodFrom(cfg, s.dbs, s.mem, reach, source, rows, from) && WellFormed(s.dbs[source])
    ensures Sound(cfg, Committed(cfg, s), reach[source := LastLsn(rows)])
  {
    BatchEnds(cfg, source, s.dbs[source], Pos(from), rows);
    assert GoodAck(s.dbs, s.mem, reach[source := LastLsn(rows)], source, LastLsn(rows));
  }

  lemma CommitKeepsInv(cfg: Config, s: System, reach: Reach, initial: DB)
    requires Inv(cfg, s, reach, initial) && s.phase.InFlight? && s.phase.source in s.dbs
    ensures Inv(cfg, Committed(cfg, s), reach[s.phase.source := LastLsn(s.phase.rows)], initial)
  {
    var source, rows := s.phase.source, s.phase.rows;
    var from :| GoodFrom(cfg, s.dbs, s.mem, reach, source, rows, from);
    CommitSound(cfg, s, reach, source, rows, from);
    FarIsGood(s.dbs, s.mem, reach, source);
    CommitReplays(cfg, s.dbs, s.mem, reach, s.target, initial, source, rows, from);
  }

  function Acknowledged(s: System, saved: bool): System
    requires s.phase.Confirmed?
  {
    Save(s, UpdateCursor(s.mem, s.phase.source, s.phase.batchId, s.phase.lsn), saved).(phase := Idle)
  }

  lemma AckSound(cfg: Config, s: System, reach: Reach, saved: bool)
    requires Sound(cfg, s, reach) && s.phase.Confirmed?
    ensures Sound(cfg, Acknowledged(s, saved), reach)
  {
    var source, batchId, lsn := s.phase.source, s.phase.batchId, s.phase.lsn;
    assert GoodAck(s.dbs, s.mem, reach, source, lsn);
    UpdateStands(s.dbs, s.mem, source, batchId, lsn);
    SaveStands(s.dbs, s.mem, s.disk, UpdateCursor(s.mem, source, batchId, lsn), saved);
  }

  // An acknowledgment tells the client what is confirmed already.
  lemma AckReplays(cfg: Config, dbs: Databases, mem: Cursors, reach: Reach, target: DB, initial: DB, source: string,
                   batchId: string, lsn: Lsn)
    requires GoodDatabases(cfg, dbs) && FarReplays(cfg, dbs, mem, reach, target, initial)
    requires GoodAck(dbs, mem, reach, source, lsn)
    ensures FarReplays(cfg, dbs, UpdateCursor(mem, source, batchId, lsn), reach, target, initial)
  {
    FarAfterUpdate(mem, reach, source, batchId, lsn);
    SameFarReplays(cfg, dbs, mem, UpdateCursor(mem, source, batchId, lsn), reach, target, initial);
  }

  lemma AckKeepsInv(cfg: Config, s: System, reach: Reach, initial: DB, saved: bool)
    requires Inv(cfg, s, reach, initial) && s.phase.Confirmed?
    ensures Inv(cfg, Acknowledged(s, saved), reach, initial)
  {
    AckSound(cfg, s, reach, saved);
    assert GoodAck(s.dbs, s.mem, reach, s.phase.source, s.phase.lsn);
    AckReplays(cfg, s.dbs, s.mem, reach, s.target, initial, s.phase.source, s.phase.batchId, s.phase.lsn);
  }

  // ---------- one event: a batch commits late ----------

  lemma ReliedIsConfirmed(s: System, reach: Reach, source: string)
    requires Standing(s.dbs, s.mem) && GoodReach(s.dbs, reach) && source in s.dbs
    ensures GoodCursor(s.dbs[source], Relied(s, reach, source))
    ensures AckedPos(s.mem, source) <= Pos(Relied(s, reach, source)) <= Pos(Far(s.mem, reach, source))
  {
    FarIsGood(s.dbs, s.mem, reach, source);
  }

  // Falling back to the position the client builds on leaves what it is doing as it was.
  lemma ReliedKeepsPhase(cfg: Config, s: System, reach: Reach, source: string)
    requires GoodPhase(cfg, s.dbs, s.mem, reach, s.phase)
    ensures GoodPhase(cfg, s.dbs, s.mem, reach[source := Relied(s, reach, source)], s.phase)
  {
    var reach' := reach[source := Relied(s, reach, source)];
    if s.phase.InFlight? {
      var from :| GoodFrom(cfg, s.dbs, s.mem, reach, s.phase.source, s.phase.rows, from);
      PollIsBeyondAcked(s.mem, source);
      assert GoodFrom(cfg, s.dbs, s.mem, reach', s.phase.source, s.phase.rows, from);
    }
  }

  lemma LateReplays(cfg: Config, dbs: Databases, mem: Cursors, reach: Reach, target: DB, initial: DB, source: string,
                    rows: seq<Entry>, from: Lsn)
    requires GoodDatabases(cfg, dbs) && FarReplays(cfg, dbs, mem, reach, target, initial) && source in dbs
    requires AckedPos(mem, source) <= Pos(from) <= Pos(Far(mem, reach, source))
    requires TableOrder(cfg, source, dbs[source], rows) && LastPassed(cfg, source, dbs[source], Pos(from), rows)
    ensures FarReplays(cfg, dbs, mem, reach[source := from],
                       Apply(Writes(cfg, source, dbs[source].captures, rows), target),
                       initial)
  {
    FarAcked(mem, reach);
    FarAfterReach(mem, reach, source, from);
    MoveBackAndLate(cfg, dbs, FarCursors(mem, reach), target, initial, source, from, rows);
    FarMoved(cfg, dbs, mem, reach, mem, reach[source := from],
             Apply(Writes(cfg, source, dbs[source].captures, rows), target), initial, source, from);
  }

  // A late commit that takes nothing back.
  lemma LateFromFar(cfg: Config, dbs: Databases, mem: Cursors, reach: Reach, target: DB, initial: DB, source: string,
                    rows: seq<Entry>)
    requires GoodDatabases(cfg, dbs) && FarReplays(cfg, dbs, mem, reach, target, initial) && source in dbs
    requires TableOrder(cfg, source, dbs[source], rows)
    requires LastPassed(cfg, source, dbs[source], Pos(Far(mem, reach, source)), rows)
    ensures FarReplays(cfg, dbs, mem, reach, Apply(Writes(cfg, source, dbs[source].captures, rows), target), initial)
  {
    FarAcked(mem, reach);
    LateKeepsReplay(cfg, dbs, FarCursors(mem, reach), target, initial, source, rows);
  }

  function CommittedLate(cfg: Config, s: System, b: Abandoned): System
    requires b.source in s.dbs
  {
    s.(target := Apply(Writes(cfg, b.source, s.dbs[b.source].captures, b.rows), s.target))
  }

  lemma LateSound(cfg: Config, s: System, reach: Reach, b: Abandoned)
    requires Sound(cfg, s, reach) && b.source in s.dbs
    ensures Sound(cfg, CommittedLate(cfg, s, b), reach)
    ensures Sound(cfg, CommittedLate(cfg, s, b), reach[b.source := Relied(s, reach, b.source)])
  {
    ReliedIsConfirmed(s, reach, b.source);
    ReliedKeepsPhase(cfg, s, reach, b.source);
  }

  // Confirming more leaves what the client is doing as it was.
  lemma MoreReachKeepsPhase(cfg: Config, s: System, reach: Reach, source: string, lsn: Lsn)
    requires GoodPhase(cfg, s.dbs, s.mem, reach, s.phase) && Pos(Far(s.mem, reach, source)) <= Pos(lsn)
    ensures GoodPhase(cfg, s.dbs, s.mem, reach[source := lsn], s.phase)
  {
    if s.phase.InFlight? {
      var from :| GoodFrom(cfg, s.dbs, s.mem, reach, s.phase.source, s.phase.rows, from);
      assert GoodFrom(cfg, s.dbs, s.mem, reach[source := lsn], s.phase.source, s.phase.rows, from);
    }
  }

  lemma ClosedLateSound(cfg: Config, s: System, reach: Reach, b: Abandoned)
    requires Sound(cfg, s, reach) && b.source in s.dbs && WellFormed(s.dbs[b.source])
    requires GoodBatch(cfg, b.source, s.dbs[b.source], Pos(Far(s.mem, reach, b.source)), b.rows)
    ensures Sound(cfg, CommittedLate(cfg, s, b), reach[b.source := LastLsn(b.rows)])
  {
    BatchEnds(cfg, b.source, s.dbs[b.source], Pos(Far(s.mem, reach, b.source)), b.rows);
    MoreReachKeepsPhase(cfg, s, reach, b.source, LastLsn(b.rows));
  }

  lemma ClosedLateKeepsInv(cfg: Config, s: System, reach: Reach, initial: DB, b: Abandoned)
    requires Inv(cfg, s, reach, initial) && b.source in s.dbs
    requires GoodBatch(cfg, b.source, s.dbs[b.source], Pos(Far(s.mem, reach, b.source)), b.rows)
    ensures Inv(cfg, CommittedLate(cfg, s, b), reach[b.source := LastLsn(b.rows)], initial)
  {
    ClosedLateSound(cfg, s, reach, b);
    CommitReplays(cfg, s.dbs, s.mem, reach, s.target, initial, b.source, b.rows, Far(s.mem, reach, b.source));
  }

  lemma LateKeepsInv(cfg: Config, s: System, reach: Reach, initial: DB, b: Abandoned)
    requires Inv(cfg, s, reach, initial) && b in s.abandoned && b.source in s.dbs
    ensures LateAt(cfg, s.dbs, b, Far(s.mem, reach, b.source)) ==> Inv(cfg, CommittedLate(cfg, s, b), reach, initial)
    ensures LateAt(cfg, s.dbs, b, Relied(s, reach, b.source))
            ==> Inv(cfg, CommittedLate(cfg, s, b), reach[b.source := Relied(s, reach, b.source)], initial)
  {
    LateSound(cfg, s, reach, b);
    if LateAt(cfg, s.dbs, b, Far(s.mem, reach, b.source)) {
      LateFromFar(cfg, s.dbs, s.mem, reach, s.target, initial, b.source, b.rows);
    }
    if LateAt(cfg, s.dbs, b, Relied(s, reach, b.source)) {
      ReliedIsConfirmed(s, reach, b.source);
      LateReplays(cfg, s.dbs, s.mem, reach, s.target, initial, b.source, b.rows, Relied(s, reach, b.source));
    }
  }

  // ---------- one event: giving up, crashes ----------

  // A batch the client gives up on stays in the log's order whatever is appended.
  lemma BatchInOrder(cfg: Config, source: string, db: SourceDb, pos: int, rows: seq<Entry>)
    requires WellFormed(db) && GoodBatch(cfg, source, db, pos, rows)
    ensures TableOrder(cfg, source, db, rows)
  {
    forall i | 0 <= i < |db.captures| && TargetOf(cfg, source, db.captures[i]).Some?
      ensures Sorted(Of(rows, i))
    {
      SortedFilter((e: Entry) => Value(e.lsn) > pos, db.log);
      SortedFilter((e: Entry) => e.capture == i, After(db.log, pos));
    }
  }

  lemma GiveUpKeepsAbandoned(cfg: Config, s: System, reach: Reach)
    requires GoodDatabases(cfg, s.dbs) && GoodPhase(cfg, s.dbs, s.mem, reach, s.phase)
    requires GoodAbandoned(cfg, s.dbs, s.abandoned)
    ensures GoodAbandoned(cfg, s.dbs, GiveUp(s).abandoned)
  {
    if s.phase.InFlight? {
      var from :| GoodFrom(cfg, s.dbs, s.mem, reach, s.phase.source, s.phase.rows, from);
      BatchInOrder(cfg, s.phase.source, s.dbs[s.phase.source], Pos(from), s.phase.rows);
    }
  }

  lemma FallBackSound(cfg: Config, s: System, reach: Reach, c: Cursors)
    requires GoodDatabases(cfg, s.dbs) && Sound(cfg, s, reach) && (c == s.mem || c == s.disk)
    ensures Sound(cfg, GiveUp(s).(mem := c), reach)
  {
    GiveUpKeepsAbandoned(cfg, s, reach);
  }

  lemma FallBackReplays(cfg: Config, dbs: Databases, mem: Cursors, c: Cursors, reach: Reach, target: DB, initial: DB)
    requires GoodDatabases(cfg, dbs) && FarReplays(cfg, dbs, mem, reach, target, initial) && Behind(dbs, c, mem)
    ensures FarReplays(cfg, dbs, c, reach, target, initial)
  {
    SameFarReplays(cfg, dbs, mem, c, reach, target, initial);
  }

  // Giving up on a batch, and falling back to the state file, confirm nothing new.
  lemma FallBackKeepsInv(cfg: Config, s: System, reach: Reach, initial: DB, c: Cursors)
    requires Inv(cfg, s, reach, initial) && (c == s.mem || c == s.disk)
    ensures Inv(cfg, GiveUp(s).(mem := c), reach, initial)
  {
    FallBackSound(cfg, s, reach, c);
    FallBackReplays(cfg, s.dbs, s.mem, c, reach, s.target, initial);
  }

  lemma IdleKeepsInv(cfg: Config, s: System, reach: Reach, initial: DB)
    requires Inv(cfg, s, reach, initial)
    ensures Inv(cfg, s.(phase := Idle), reach, initial)
  {
  }

  // ---------- every event, every run ----------

  // What an event does to the state and to the confirmed positions, by cases.
  lemma CommitStep(cfg: Config, s: System, reach: Reach)
    requires s.phase.InFlight? && s.phase.source in s.dbs
    ensures Step(cfg, s, Commit) == Committed(cfg, s)
    ensures NextReach(cfg, s, reach, Commit) == reach[s.phase.source := LastLsn(s.phase.rows)]
  {
  }

  lemma LateStep(cfg: Config, s: System, reach: Reach, index: nat)
    requires index < |s.abandoned| && s.abandoned[index].source in s.dbs
    ensures var b := s.abandoned[index];
            && Step(cfg, s, LateCommit(index)) == CommittedLate(cfg, s, b)
            && NextReach(cfg, s, reach, LateCommit(index)) ==
               if GoodBatch(cfg, b.source, s.dbs[b.source], Pos(Far(s.mem, reach, b.source)), b.rows)
               then reach[b.source := LastLsn(b.rows)]
               else if LateAt(cfg, s.dbs, b, Far(s.mem, reach, b.source)) then reach
               else reach[b.source := Relied(s, reach, b.source)]
  {
  }

  lemma LateStepKeepsInv(cfg: Config, s: System, reach: Reach, initial: DB, index: nat, s': System, reach': Reach)
    requires Inv(cfg, s, reach, initial) && Safe(cfg, s, reach, LateCommit(index))
    requires index < |s.abandoned| && s.abandoned[index].source in s.dbs
    requires s' == Step(cfg, s, LateCommit(index)) && reach' == NextReach(cfg, s, reach, LateCommit(index))
    ensures Inv(cfg, s', reach', initial)
  {
    var b := s.abandoned[index];
    LateStep(cfg, s, reach, index);
    if GoodBatch(cfg, b.source, s.dbs[b.source], Pos(Far(s.mem, reach, b.source)), b.rows) {
      ClosedLateKeepsInv(cfg, s, reach, initial, b);
    } else {
      LateKeepsInv(cfg, s, reach, initial, b);
    }
  }

  predicate Ends(ev: Event) {
    ev.Reject? || ev.Lose? || ev.AckLost? || ev.Crash?
  }

  lemma EndKeepsInv(cfg: Config, s: System, reach: Reach, initial: DB, ev: Event, s': System)
    requires Inv(cfg, s, reach, initial) && Ends(ev) && s' == Step(cfg, s, ev)
    ensures Inv(cfg, s', reach, initial)
  {
    if ev.Crash? {
      FallBackKeepsInv(cfg, s, reach, initial, s.disk);
    } else if ev.Lose? {
      FallBackKeepsInv(cfg, s, reach, initial, s.mem);
      assert GiveUp(s).(mem := s.mem) == GiveUp(s);
    } else {
      IdleKeepsInv(cfg, s, reach, initial);
    }
  }

  lemma CommitEventKeepsInv(cfg: Config, s: System, reach: Reach, initial: DB, s': System, reach': Reach)
    requires Inv(cfg, s, reach, initial) && s' == Step(cfg, s, Commit) && reach' == NextReach(cfg, s, reach, Commit)
    ensures Inv(cfg, s', reach', initial)
  {
    if s.phase.InFlight? && s.phase.source in s.dbs {
      CommitStep(cfg, s, reach);
      CommitKeepsInv(cfg, s, reach, initial);
    } else {
      assert s' == s && reach' == reach;
    }
  }

  lemma AckEventKeepsInv(cfg: Config, s: System, reach: Reach, initial: DB, saved: bool, s': System)
    requires Inv(cfg, s, reach, initial) && s' == Step(cfg, s, AckArrives(saved))
    ensures Inv(cfg, s', reach, initial)
  {
    if s.phase.Confirmed? {
      AckKeepsInv(cfg, s, reach, initial, saved);
    } else {
      assert s' == s;
    }
  }

  lemma StepKeepsInv(cfg: Config, s: System, reach: Reach, initial: DB, ev: Event, s': System, reach': Reach)
    requires Inv(cfg, s, reach, initial) && Safe(cfg, s, reach, ev)
    requires s' == Step(cfg, s, ev) && reach' == NextReach(cfg, s, reach, ev)
    ensures Inv(cfg, s', reach', initial)
  {
    match ev
    case Append(source, rows, maxLsn) =>
      if source in s.dbs { AppendKeepsInv(cfg, s, reach, initial, source, rows, maxLsn); }
    case PollSource(source, faults, batchId, saved) =>
      if s.phase.Idle? && source in s.dbs {
        PollKeepsInv(cfg, s, reach, initial, source, faults, batchId, saved);
      }
    case LateCommit(index) =>
      if index < |s.abandoned| && s.abandoned[index].source in s.dbs {
        LateStepKeepsInv(cfg, s, reach, initial, index, s', reach');
      }
    case Commit => CommitEventKeepsInv(cfg, s, reach, initial, s', reach');
    case AckArrives(saved) => AckEventKeepsInv(cfg, s, reach, initial, saved, s');
    case _ => EndKeepsInv(cfg, s, reach, initial, ev, s');
  }

  lemma {:induction false} RunKeepsInv(cfg: Config, s: System, reach: Reach, initial: DB, evs: seq<Event>)
    requires Inv(cfg, s, reach, initial) && SafeRun(cfg, s, reach, evs)
    ensures Inv(cfg, Run(cfg, s, evs), ReachAfter(cfg, s, reach, evs), initial)
    decreases evs
  {
    if evs != [] {
      StepKeepsInv(cfg, s, reach, initial, evs[0], Step(cfg, s, evs[0]), NextReach(cfg, s, reach, evs[0]));
      RunKeepsInv(cfg, Step(cfg, s, evs[0]), NextReach(cfg, s, reach, evs[0]), initial, evs[1..]);
    }
  }

  // Whatever the history, replaying what lies beyond the cursors, in memory or on disk, gives the
  // completely replicated tables; and the cursors on disk are never ahead of those in memory.
  lemma {:induction false} SafeReplay(cfg: Config, s: System, initial: DB, evs: seq<Event>)
    requires Initial(cfg, s, initial) && SafeRun(cfg, s, map[], evs)
    ensures var s' := Run(cfg, s, evs);
            && Replays(cfg, s'.dbs, s'.mem, s'.target, initial)
            && Replays(cfg, s'.dbs, s'.disk, s'.target, initial)
            && forall source :: source in s'.dbs ==> AckedPos(s'.disk, source) <= AckedPos(s'.mem, source)
  {
    InvAtStart(cfg, s, initial);
    RunKeepsInv(cfg, s, map[], initial, evs);
    BothReplay(cfg, Run(cfg, s, evs), ReachAfter(cfg, s, map[], evs), initial);
  }
}
