// Why safe runs need what `Safe` and `DistinctTargets` demand: what goes wrong without each demand.
module Hypotheses {
  import opened Common
  import opened Lsn
  import opened Sequences
  import opened Replica
  import opened Source
  import opened Coverage
  import opened Cursors
  import opened Protocol
  import opened Replay
  import opened Invariant
  import opened Safety
  import opened Progress
  import opened Drain
  import opened Foresight

  // ---------- what the cursor has passed is never read again ----------

  // Even the state file only moves forward, restarts included.
  lemma {:induction false} DiskNeverFallsBack(cfg: Config, s: System, evs: seq<Event>, source: string)
    requires GoodLogs(s.dbs) && Ordered(s) && OrderlyRun(cfg, s, evs) && source in s.dbs
    ensures AckedPos(s.disk, source) <= AckedPos(Run(cfg, s, evs).disk, source)
    decreases evs
  {
    if evs != [] {
      StepOrdered(cfg, s, evs[0]);
      LogsStayGood(cfg, s, evs[0]);
      DiskMovesForward(cfg, s, evs[0], source);
      DiskNeverFallsBack(cfg, Step(cfg, s, evs[0]), evs[1..], source);
    }
  }

  lemma DiskMovesForward(cfg: Config, s: System, ev: Event, source: string)
    requires GoodLogs(s.dbs) && Ordered(s) && InOrder(s, ev) && source in s.dbs
    ensures AckedPos(s.disk, source) <= AckedPos(Step(cfg, s, ev).disk, source)
  {
    CursorsMoveForward(cfg, s, ev, source);
    DiskAfterStep(cfg, s, ev);
  }

  // A row at or before the saved position is never polled again, in whatever run follows.
  lemma PassedRowIsNeverReadAgain(cfg: Config, s: System, evs: seq<Event>, source: string, faults: seq<ReadFault>,
                                  e: Entry)
    requires GoodLogs(s.dbs) && Ordered(s) && OrderlyRun(cfg, s, evs) && source in s.dbs
    requires Value(e.lsn) <= AckedPos(s.disk, source)
    ensures source in Run(cfg, s, evs).dbs && e !in PollOf(cfg, Run(cfg, s, evs), source, faults).entries
  {
    OrderedRun(cfg, s, evs);
    DiskNeverFallsBack(cfg, s, evs, source);
    NotPolledBehind(cfg, Run(cfg, s, evs), source, faults, e);
  }

  lemma NotPolledBehind(cfg: Config, s: System, source: string, faults: seq<ReadFault>, e: Entry)
    requires GoodLogs(s.dbs) && Ordered(s) && source in s.dbs && Value(e.lsn) <= AckedPos(s.disk, source)
    ensures e !in PollOf(cfg, s, source, faults).entries
  {
    assert AckedPos(s.disk, source) <= AckedPos(s.mem, source);
    assert PollCursor(s.mem, source) == Acked(s.mem, source);
    if e in PollOf(cfg, s, source, faults).entries {
      PollBeyondCursor(s.dbs[source], PollCursor(s.mem, source), cfg.batchSize, faults, e);
    }
  }

  // ---------- a row the cursor passes unsent is lost ----------

  // If nothing of the backlog touches a key whose content is not the replicated one, replay is broken.
  lemma LostKey(cfg: Config, dbs: Databases, c: Cursors, target: DB, initial: DB, key: Key)
    requires On(Backlog(cfg, dbs, c), key) == [] && Lookup(target, key) != Lookup(Replicated(cfg, dbs, initial), key)
    ensures !Replays(cfg, dbs, c, target, initial)
  {
    Pointwise(Backlog(cfg, dbs, c), target, key);
  }

  lemma {:induction false} NoWriter(cfg: Config, source: string, caps: seq<Capture>, rows: seq<Entry>, key: Key)
    requires forall x :: x in rows ==> On(EntryWrites(cfg, source, caps, x), key) == []
    ensures On(Writes(cfg, source, caps, rows), key) == []
  {
    if rows != [] {
      NoWriter(cfg, source, caps, rows[1..], key);
      OnConcat(EntryWrites(cfg, source, caps, rows[0]), Writes(cfg, source, caps, rows[1..]), key);
    }
  }

  // A tracked row, and the key it is the only one in the log to write: an insert, an update or a delete.
  predicate LoneWrite(cfg: Config, source: string, db: SourceDb, e: Entry, key: Key, op: CellOp) {
    && e in db.log && IsTracked(cfg, source, db.captures, e)
    && EntryWrites(cfg, source, db.captures, e) == [Write(key, op)]
    && forall x :: x in db.log && x != e ==> On(EntryWrites(cfg, source, db.captures, x), key) == []
  }

  lemma {:induction false} LoneWriteDecides(cfg: Config, source: string, caps: seq<Capture>, rows: seq<Entry>,
                                            e: Entry, key: Key, op: CellOp, c: Cell)
    requires EntryWrites(cfg, source, caps, e) == [Write(key, op)]
    requires forall x :: x in rows && x != e ==> On(EntryWrites(cfg, source, caps, x), key) == []
    ensures RunCell(On(Writes(cfg, source, caps, rows), key), c) == if e in rows then StepCell(op, c) else c
  {
    if rows != [] {
      var x, rest := rows[0], rows[1..];
      var ops := On(EntryWrites(cfg, source, caps, x), key);
      OnConcat(EntryWrites(cfg, source, caps, x), Writes(cfg, source, caps, rest), key);
      RunCellConcat(ops, On(Writes(cfg, source, caps, rest), key), c);
      if x == e {
        assert [Write(key, op)][1..] == [];
        assert ops == [op] && ops[1..] == [];
        MergeTwice(op, c);
      }
      LoneWriteDecides(cfg, source, caps, rest, e, key, op, RunCell(ops, c));
    }
  }

  lemma MergeTwice(op: CellOp, c: Cell)
    ensures StepCell(op, StepCell(op, c)) == StepCell(op, c)
  {
    if op.Put? {
      assert op.row + op.row == op.row;
      if c.Some? { assert (c.value + op.row) + op.row == c.value + op.row; }
    }
  }

  // If the client has sent some rows without e, and its cursor has passed e, a target that does not hold what e
  // makes of its key misses it for good.
  lemma PassedUnsentIsLost(cfg: Config, dbs: Databases, c: Cursors, target: DB, initial: DB, source: string,
                           sent: seq<Entry>, e: Entry, key: Key, op: CellOp)
    requires DistinctTargets(cfg, dbs) && source in dbs && WellFormed(dbs[source])
    requires LoneWrite(cfg, source, dbs[source], e, key, op)
    requires Lookup(target, key) != StepCell(op, Lookup(initial, key))
    requires forall x :: x in sent ==> x in dbs[source].log && x != e
    requires Value(e.lsn) <= AckedPos(c, source)
    ensures !Replays(cfg, dbs, c, Apply(Writes(cfg, source, dbs[source].captures, sent), target), initial)
  {
    var db := dbs[source];
    var caps, beyond := db.captures, After(db.log, AckedPos(c, source));
    OwnedKey(cfg, dbs, source, e, key, op);
    BacklogOfOwner(cfg, dbs, c, source, key);
    forall x | x in beyond
      ensures x in db.log && x != e
    {
      FilterMember((y: Entry) => Value(y.lsn) > AckedPos(c, source), db.log, x);
    }
    NoWriter(cfg, source, caps, beyond, key);
    NoWriter(cfg, source, caps, sent, key);
    Pointwise(Writes(cfg, source, caps, sent), target, key);
    ReplicatedOfLone(cfg, dbs, initial, source, e, key, op);
    LostKey(cfg, dbs, c, Apply(Writes(cfg, source, caps, sent), target), initial, key);
  }

  lemma OwnedKey(cfg: Config, dbs: Databases, source: string, e: Entry, key: Key, op: CellOp)
    requires source in dbs && LoneWrite(cfg, source, dbs[source], e, key, op)
    ensures Owns(cfg, dbs, source, key.table)
  {
    assert Feeds(cfg, dbs, source, e.capture, key.table);
  }

  lemma ReplicatedOfLone(cfg: Config, dbs: Databases, initial: DB, source: string, e: Entry, key: Key, op: CellOp)
    requires DistinctTargets(cfg, dbs) && source in dbs && WellFormed(dbs[source])
    requires LoneWrite(cfg, source, dbs[source], e, key, op)
    ensures Lookup(Replicated(cfg, dbs, initial), key) == StepCell(op, Lookup(initial, key))
  {
    var db := dbs[source];
    OwnedKey(cfg, dbs, source, e, key, op);
    BacklogOfOwner(cfg, dbs, map[], source, key);
    FilterAll((y: Entry) => Value(y.lsn) > -1, db.log);
    assert After(db.log, AckedPos(map[], source)) == db.log;
    LoneWriteDecides(cfg, source, db.captures, db.log, e, key, op, Lookup(initial, key));
    Pointwise(Backlog(cfg, dbs, map[]), initial, key);
  }

  // Any cycle that moves the cursor past a row its poll left out loses the row: behind a batch that was sent,
  // behind untracked rows, or to the end of the log after a poll that came back empty (because every read
  // failed, say). A poll that is not closed is not harmless.
  lemma UnclosedPollLosesRow(cfg: Config, s: System, initial: DB, source: string, faults: seq<ReadFault>,
                             batchId: string, r: PollResult, e: Entry, key: Key, op: CellOp)
    requires DistinctTargets(cfg, s.dbs) && GoodLogs(s.dbs) && Standing(s.dbs, s.mem) && s.phase == Idle
    requires source in s.dbs && r == PollOf(cfg, s, source, faults) && (r.entries != [] || r.maxLsn != [])
    requires LoneWrite(cfg, source, s.dbs[source], e, key, op) && e !in r.entries
    requires Lookup(s.target, key) != StepCell(op, Lookup(initial, key))
    requires Value(e.lsn) <= Pos(CycleLsn(cfg, source, s.dbs[source], r))
    ensures var s' := Run(cfg, s, CycleWith(source, faults, batchId)); !Replays(cfg, s'.dbs, s'.mem, s'.target, initial)
  {
    var db := s.dbs[source];
    var sent := Tracked(cfg, source, db.captures, r.entries);
    CycleUnrolled(cfg, s, source, faults, batchId);
    CycleLeaves(cfg, s, source, batchId, r);
    forall x | x in sent
      ensures x in db.log && x != e
    {
      FilterMember((y: Entry) => IsTracked(cfg, source, db.captures, y), r.entries, x);
      PollBeyondCursor(db, PollCursor(s.mem, source), cfg.batchSize, faults, x);
    }
    PassedUnsentIsLost(cfg, s.dbs, Run(cfg, s, CycleWith(source, faults, batchId)).mem, s.target, initial, source, sent,
                       e, key, op);
  }

  lemma {:induction false} FailedReadsReturnNothing(db: SourceDb, i: nat, start: Lsn, batchSize: nat,
                                                    faults: seq<ReadFault>)
    requires i <= |db.captures| && forall j: nat :: i <= j < |db.captures| ==> !FaultAt(faults, j).Healthy?
    ensures ReadTables(db, i, start, batchSize, faults, []) == []
    decreases |db.captures| - i
  {
    if i < |db.captures| {
      FailedReadsReturnNothing(db, i + 1, start, batchSize, faults);
    }
  }

  // The worst case: every table's read fails, the poll comes back empty, and the cursor jumps to the end of the
  // log over everything.
  lemma FailedReadsLoseRow(cfg: Config, s: System, initial: DB, source: string, faults: seq<ReadFault>,
                           batchId: string, e: Entry, key: Key, op: CellOp)
    requires DistinctTargets(cfg, s.dbs) && GoodLogs(s.dbs) && Standing(s.dbs, s.mem) && s.phase == Idle
    requires source in s.dbs
    requires forall j: nat :: j < |s.dbs[source].captures| ==> !FaultAt(faults, j).Healthy?
    requires LoneWrite(cfg, source, s.dbs[source], e, key, op)
    requires Lookup(s.target, key) != StepCell(op, Lookup(initial, key))
    requires Pos(PollCursor(s.mem, source)) < Value(e.lsn)
    ensures var s' := Run(cfg, s, CycleWith(source, faults, batchId)); !Replays(cfg, s'.dbs, s'.mem, s'.target, initial)
  {
    var db, from := s.dbs[source], PollCursor(s.mem, source);
    StartIsNext(db, from);
    assert GoodEntry(db, e);
    FailedReadsReturnNothing(db, 0, StartLsn(db, from), cfg.batchSize, faults);
    UnclosedPollLosesRow(cfg, s, initial, source, faults, batchId, PollResult([], db.maxLsn), e, key, op);
  }

  // ---------- a late commit the cursor did not wait for ----------

  lemma StaleWritesBreakReplay(cfg: Config, dbs: Databases, c: Cursors, target: DB, initial: DB, ws: seq<Write>,
                               key: Key, stale: Row, col: string)
    requires Replays(cfg, dbs, c, target, initial) && On(Backlog(cfg, dbs, c), key) == [] && On(ws, key) == [Put(stale)]
    requires key in target && col in stale && col in target[key] && stale[col] != target[key][col]
    ensures !Replays(cfg, dbs, c, Apply(ws, target), initial)
  {
    Pointwise(Backlog(cfg, dbs, c), target, key);
    Pointwise(ws, target, key);
    assert [Put(stale)][1..] == [];
    assert RunCell([Put(stale)], Lookup(target, key)) == Some(target[key] + stale);
    LostKey(cfg, dbs, c, Apply(ws, target), initial, key);
  }

  lemma LateCommitStep(cfg: Config, s: System, i: nat)
    requires i < |s.abandoned| && s.abandoned[i].source in s.dbs
    ensures var b := s.abandoned[i];
            Step(cfg, s, LateCommit(i))
            == s.(target := Apply(Writes(cfg, b.source, s.dbs[b.source].captures, b.rows), s.target))
  {
  }

  // A batch that commits after its row was superseded and passed overwrites the newer content for good.
  lemma {:induction false} StaleLateCommitBreaksReplay(cfg: Config, s: System, initial: DB, i: nat, key: Key,
                                                       stale: Row, col: string)
    requires i < |s.abandoned| && s.abandoned[i].source in s.dbs && Replays(cfg, s.dbs, s.mem, s.target, initial)
    requires On(Backlog(cfg, s.dbs, s.mem), key) == []
    requires var b := s.abandoned[i]; On(Writes(cfg, b.source, s.dbs[b.source].captures, b.rows), key) == [Put(stale)]
    requires key in s.target && col in stale && col in s.target[key] && stale[col] != s.target[key][col]
    ensures var s' := Step(cfg, s, LateCommit(i)); !Replays(cfg, s'.dbs, s'.mem, s'.target, initial)
  {
    var b := s.abandoned[i];
    LateCommitStep(cfg, s, i);
    var ws := Writes(cfg, b.source, s.dbs[b.source].captures, b.rows);
    StaleWritesBreakReplay(cfg, s.dbs, s.mem, s.target, initial, ws, key, stale, col);
  }

  // ---------- when a late commit is harmless ----------

  // Every put of a table carries the same columns, and its stored rows carry no others.
  ghost predicate CompleteOn(cfg: Config, dbs: Databases, columns: map<string, set<string>>) {
    forall key: Key :: key.table in columns ==> CompleteOps(On(Backlog(cfg, dbs, map[]), key), columns[key.table])
  }

  ghost predicate ConfinedDb(db: DB, columns: map<string, set<string>>) {
    forall key: Key :: key.table in columns ==> Confined(Lookup(db, key), columns[key.table])
  }

  // Of every key a batch writes and no backlog is left of, its last write is the last one in the log.
  ghost predicate LastInLog(cfg: Config, dbs: Databases, c: Cursors, ws: seq<Write>) {
    forall key: Key :: On(ws, key) != [] && On(Backlog(cfg, dbs, c), key) == []
                       ==> SameLast(On(ws, key), On(Backlog(cfg, dbs, map[]), key))
  }

  predicate SameLast(a: seq<CellOp>, b: seq<CellOp>) {
    a != [] && b != [] && a[|a| - 1] == b[|b| - 1]
  }

  // The writes of a key by rows of the log are among all writes of the key.
  lemma AmongAll(cfg: Config, dbs: Databases, source: string, rows: seq<Entry>, key: Key)
    requires DistinctTargets(cfg, dbs) && source in dbs && Owns(cfg, dbs, source, key.table)
    requires forall e :: e in rows ==> e in dbs[source].log
    ensures forall op :: op in On(Writes(cfg, source, dbs[source].captures, rows), key)
                         ==> op in On(Backlog(cfg, dbs, map[]), key)
  {
    var caps, log := dbs[source].captures, dbs[source].log;
    BacklogOfOwner(cfg, dbs, map[], source, key);
    FilterAll((e: Entry) => Value(e.lsn) > -1, rows);
    LateRowsRemain(cfg, source, caps, log, rows, -1, key);
  }

  // One key, of which `all` is everything ever written, `rest` the last part of it, still to come.
  lemma LateCellIff(p: seq<CellOp>, again: seq<CellOp>, rest: seq<CellOp>, columns: set<string>, start: Cell,
                    cell: Cell)
    requires CompleteOps(p + rest, columns) && again != [] && forall op :: op in again ==> op in p + rest
    requires Confined(start, columns) && Confined(cell, columns)
    requires RunCell(rest, cell) == RunCell(p + rest, start)
    ensures RunCell(rest, RunCell(again, cell)) == RunCell(p + rest, start) <==> rest != [] || SameLast(again, p + rest)
  {
    assert again[0] in p + rest;
    assert forall op :: op in rest ==> op in p + rest;
    if rest != [] {
      LastDecides(again, columns, cell);
      LastDecides(rest, columns, cell);
      LastDecides(rest, columns, RunCell(again, cell));
    } else {
      AgainIff(p + rest, again, columns, start);
    }
  }

  lemma LateKeyIff(cfg: Config, dbs: Databases, c: Cursors, target: DB, initial: DB, source: string, rows: seq<Entry>,
                   key: Key, columns: map<string, set<string>>)
    requires GoodDatabases(cfg, dbs) && source in dbs && Replays(cfg, dbs, c, target, initial)
    requires forall e :: e in rows ==> e in dbs[source].log
    requires On(Writes(cfg, source, dbs[source].captures, rows), key) != [] && key.table in columns
    requires CompleteOn(cfg, dbs, columns) && ConfinedDb(initial, columns) && ConfinedDb(target, columns)
    ensures var ws := Writes(cfg, source, dbs[source].captures, rows);
            Lookup(Apply(Backlog(cfg, dbs, c), Apply(ws, target)), key) == Lookup(Replicated(cfg, dbs, initial), key)
            <==> On(Backlog(cfg, dbs, c), key) != [] || SameLast(On(ws, key), On(Backlog(cfg, dbs, map[]), key))
  {
    var caps := dbs[source].captures;
    var ws := Writes(cfg, source, caps, rows);
    if !Owns(cfg, dbs, source, key.table) { NotOwned(cfg, dbs, source, rows, key); }
    Pointwise(ws, target, key);
    Pointwise(Backlog(cfg, dbs, c), Apply(ws, target), key);
    Pointwise(Backlog(cfg, dbs, c), target, key);
    Pointwise(Backlog(cfg, dbs, map[]), initial, key);
    AmongAll(cfg, dbs, source, rows, key);
    FullSplit(cfg, dbs, c, source, key);
    var p := On(Writes(cfg, source, caps, UpTo(dbs[source].log, AckedPos(c, source))), key);
    LateCellIff(p, On(ws, key), On(Backlog(cfg, dbs, c), key), columns[key.table], Lookup(initial, key),
                Lookup(target, key));
  }

  // With complete rows, a batch that commits once more keeps replay right if and only if of every key it
  // writes, unless more of the key is still to come, its last write is the last one in the log.
  lemma {:induction false} LateWritesIff(cfg: Config, dbs: Databases, c: Cursors, target: DB, initial: DB,
                                         source: string,
                                         rows: seq<Entry>, columns: map<string, set<string>>)
    requires GoodDatabases(cfg, dbs) && source in dbs && Replays(cfg, dbs, c, target, initial)
    requires forall e :: e in rows ==> e in dbs[source].log
    requires forall w :: w in Writes(cfg, source, dbs[source].captures, rows) ==> w.key.table in columns
    requires CompleteOn(cfg, dbs, columns) && ConfinedDb(initial, columns) && ConfinedDb(target, columns)
    ensures var ws := Writes(cfg, source, dbs[source].captures, rows);
            Replays(cfg, dbs, c, Apply(ws, target), initial) <==> LastInLog(cfg, dbs, c, ws)
  {
    var ws := Writes(cfg, source, dbs[source].captures, rows);
    var after := Apply(Backlog(cfg, dbs, c), Apply(ws, target));
    forall key: Key
      ensures Lookup(after, key) == Lookup(Replicated(cfg, dbs, initial), key)
              <==> (On(ws, key) != [] && On(Backlog(cfg, dbs, c), key) == []
                    ==> SameLast(On(ws, key), On(Backlog(cfg, dbs, map[]), key)))
    {
      if On(ws, key) != [] {
        OnMember(ws, key, On(ws, key)[0]);
        assert Write(key, On(ws, key)[0]).key.table in columns;
        LateKeyIff(cfg, dbs, c, target, initial, source, rows, key, columns);
      } else {
        Pointwise(ws, target, key);
        Pointwise(Backlog(cfg, dbs, c), Apply(ws, target), key);
        Pointwise(Backlog(cfg, dbs, c), target, key);
      }
    }
    if LastInLog(cfg, dbs, c, ws) {
      SameCellsSameDb(after, Replicated(cfg, dbs, initial));
    }
  }

  // So for the event itself, in every state that satisfies the invariant.
  lemma {:induction false} LateCommitIff(cfg: Config, s: System, reach: Reach, initial: DB, i: nat,
                                         columns: map<string, set<string>>)
    requires Inv(cfg, s, reach, initial) && i < |s.abandoned| && s.abandoned[i].source in s.dbs
    requires var b := s.abandoned[i];
             forall w :: w in Writes(cfg, b.source, s.dbs[b.source].captures, b.rows) ==> w.key.table in columns
    requires CompleteOn(cfg, s.dbs, columns) && ConfinedDb(initial, columns) && ConfinedDb(s.target, columns)
    ensures var s', b := Step(cfg, s, LateCommit(i)), s.abandoned[i];
            Replays(cfg, s'.dbs, s'.mem, s'.target, initial)
            <==> LastInLog(cfg, s.dbs, s.mem, Writes(cfg, b.source, s.dbs[b.source].captures, b.rows))
  {
    var b := s.abandoned[i];
    assert b in s.abandoned;
    BothReplay(cfg, s, reach, initial);
    LateCommitStep(cfg, s, i);
    LateWritesIff(cfg, s.dbs, s.mem, s.target, initial, b.source, b.rows, columns);
  }

  // ---------- what exactly a cursor move loses ----------

  // Of every key with writes between two positions of the cursors and none beyond, what was sent ends with the
  // last of them, or nothing was sent and the target holds it already.
  ghost predicate PassedAreHeld(cfg: Config, dbs: Databases, c: Cursors, c': Cursors, ws: seq<Write>, target: DB) {
    forall key :: On(Backlog(cfg, dbs, c), key) != [] && On(Backlog(cfg, dbs, c'), key) == []
                  ==> IsHeld(On(ws, key), On(Backlog(cfg, dbs, c), key), Lookup(target, key))
  }

  predicate IsHeld(sent: seq<CellOp>, passed: seq<CellOp>, held: Cell)
    requires passed != []
  {
    if sent != [] then SameLast(sent, passed) else held == Written(passed[|passed| - 1])
  }

  // One key: its writes beyond the old position, of which `rest` lie beyond the new one too.
  lemma MoveCellIff(m: seq<CellOp>, sent: seq<CellOp>, rest: seq<CellOp>, columns: set<string>, cell: Cell)
    requires CompleteOps(m + rest, columns) && Confined(cell, columns) && forall op :: op in sent ==> op in m + rest
    ensures RunCell(rest, RunCell(sent, cell)) == RunCell(m + rest, cell)
            <==> (m + rest != [] && rest == [] ==> IsHeld(sent, m + rest, cell))
  {
    assert forall op :: op in rest ==> op in m + rest;
    assert sent != [] ==> sent[0] in m + rest;
    LastDecides(sent, columns, cell);
    LastDecides(rest, columns, RunCell(sent, cell));
    LastDecides(m + rest, columns, cell);
  }

  lemma SentAmongBacklog(cfg: Config, dbs: Databases, c: Cursors, source: string, rows: seq<Entry>, key: Key)
    requires DistinctTargets(cfg, dbs) && source in dbs && Owns(cfg, dbs, source, key.table)
    requires forall e :: e in rows ==> e in After(dbs[source].log, AckedPos(c, source))
    ensures forall op :: op in On(Writes(cfg, source, dbs[source].captures, rows), key)
                         ==> op in On(Backlog(cfg, dbs, c), key)
    ensures On(Backlog(cfg, dbs, c), key) == [] ==> On(Writes(cfg, source, dbs[source].captures, rows), key) == []
  {
    var caps, beyond := dbs[source].captures, After(dbs[source].log, AckedPos(c, source));
    BacklogOfOwner(cfg, dbs, c, source, key);
    WritesSubset(cfg, source, caps, rows, beyond);
    forall op | op in On(Writes(cfg, source, caps, rows), key)
      ensures op in On(Writes(cfg, source, caps, beyond), key)
    {
      OnMember(Writes(cfg, source, caps, rows), key, op);
      OnMember(Writes(cfg, source, caps, beyond), key, op);
    }
    var sent := On(Writes(cfg, source, caps, rows), key);
    assert sent == [] || sent[0] in sent;
  }

  lemma MoveKeyIff(cfg: Config, dbs: Databases, c: Cursors, c': Cursors, target: DB, source: string, rows: seq<Entry>,
                   key: Key, columns: map<string, set<string>>)
    requires GoodDatabases(cfg, dbs) && source in dbs && Owns(cfg, dbs, source, key.table)
    requires AckedPos(c, source) <= AckedPos(c', source)
    requires forall e :: e in rows ==> e in After(dbs[source].log, AckedPos(c, source))
    requires On(Backlog(cfg, dbs, c), key) != [] ==> key.table in columns
    requires CompleteOn(cfg, dbs, columns) && ConfinedDb(target, columns)
    ensures var ws := Writes(cfg, source, dbs[source].captures, rows);
            Lookup(Apply(Backlog(cfg, dbs, c'), Apply(ws, target)), key)
            == Lookup(Apply(Backlog(cfg, dbs, c), target), key)
            <==> (On(Backlog(cfg, dbs, c), key) != [] && On(Backlog(cfg, dbs, c'), key) == []
                  ==> IsHeld(On(ws, key), On(Backlog(cfg, dbs, c), key), Lookup(target, key)))
  {
    var ws := Writes(cfg, source, dbs[source].captures, rows);
    Pointwise(ws, target, key);
    Pointwise(Backlog(cfg, dbs, c'), Apply(ws, target), key);
    Pointwise(Backlog(cfg, dbs, c), target, key);
    SentAmongBacklog(cfg, dbs, c, source, rows, key);
    var m := BacklogSplit(cfg, dbs, c', c, source, key);
    if On(Backlog(cfg, dbs, c), key) != [] {
      FullSplit(cfg, dbs, c, source, key);
      assert CompleteOps(On(Backlog(cfg, dbs, c), key), columns[key.table]);
      MoveCellIff(m, On(ws, key), On(Backlog(cfg, dbs, c'), key), columns[key.table], Lookup(target, key));
    }
  }

  // With complete rows, sending any rows beyond a cursor and moving it anywhere keeps replay right if and only if
  // of every key that is passed for good the last write was sent last, or none was and the target holds it.
  lemma {:induction false} MoveIff(cfg: Config, dbs: Databases, c: Cursors, c': Cursors, target: DB, initial: DB,
                                   source: string, rows: seq<Entry>, columns: map<string, set<string>>)
    requires GoodDatabases(cfg, dbs) && source in dbs && Replays(cfg, dbs, c, target, initial)
    requires forall other :: other in dbs && other != source ==> AckedPos(c, other) == AckedPos(c', other)
    requires AckedPos(c, source) <= AckedPos(c', source)
    requires forall e :: e in rows ==> e in After(dbs[source].log, AckedPos(c, source))
    requires forall w :: w in SourceBacklog(cfg, dbs, c, source) ==> w.key.table in columns
    requires CompleteOn(cfg, dbs, columns) && ConfinedDb(target, columns)
    ensures var ws := Writes(cfg, source, dbs[source].captures, rows);
            Replays(cfg, dbs, c', Apply(ws, target), initial) <==> PassedAreHeld(cfg, dbs, c, c', ws, target)
  {
    var ws := Writes(cfg, source, dbs[source].captures, rows);
    var after, before := Apply(Backlog(cfg, dbs, c'), Apply(ws, target)), Apply(Backlog(cfg, dbs, c), target);
    forall key: Key
      ensures Lookup(after, key) == Lookup(before, key)
              <==> (On(Backlog(cfg, dbs, c), key) != [] && On(Backlog(cfg, dbs, c'), key) == []
                    ==> IsHeld(On(ws, key), On(Backlog(cfg, dbs, c), key), Lookup(target, key)))
    {
      if Owns(cfg, dbs, source, key.table) {
        TableKnown(cfg, dbs, c, source, key, columns);
        MoveKeyIff(cfg, dbs, c, c', target, source, rows, key, columns);
      } else {
        NotOwned(cfg, dbs, source, rows, key);
        BacklogOfOthers(cfg, dbs, dbs, c, c', source, key, 0);
        Pointwise(ws, target, key);
        Pointwise(Backlog(cfg, dbs, c'), Apply(ws, target), key);
        Pointwise(Backlog(cfg, dbs, c), target, key);
      }
    }
    if PassedAreHeld(cfg, dbs, c, c', ws, target) {
      SameCellsSameDb(after, before);
    }
  }

  lemma TableKnown(cfg: Config, dbs: Databases, c: Cursors, source: string, key: Key, columns: map<string, set<string>>)
    requires DistinctTargets(cfg, dbs) && Owns(cfg, dbs, source, key.table)
    requires forall w :: w in SourceBacklog(cfg, dbs, c, source) ==> w.key.table in columns
    ensures On(Backlog(cfg, dbs, c), key) != [] ==> key.table in columns
  {
    BacklogOfOwner(cfg, dbs, c, source, key);
    var ops := On(SourceBacklog(cfg, dbs, c, source), key);
    if ops != [] {
      OnMember(SourceBacklog(cfg, dbs, c, source), key, ops[0]);
      assert Write(key, ops[0]).key.table in columns;
    }
  }

  // So for a cycle with any poll, whatever reads fail and wherever TOP cuts, in every state that satisfies the
  // invariant: replay is right after it if and only if it leaves no such key behind.
  lemma {:induction false} CycleIff(cfg: Config, s: System, reach: Reach, initial: DB, source: string,
                                    faults: seq<ReadFault>, batchId: string, columns: map<string, set<string>>)
    requires Inv(cfg, s, reach, initial) && s.phase == Idle && source in s.dbs
    requires forall w :: w in SourceBacklog(cfg, s.dbs, s.mem, source) ==> w.key.table in columns
    requires CompleteOn(cfg, s.dbs, columns) && ConfinedDb(s.target, columns)
    ensures var s' := Run(cfg, s, CycleWith(source, faults, batchId));
            var caps := s.dbs[source].captures;
            var sent := Writes(cfg, source, caps, Tracked(cfg, source, caps, PollOf(cfg, s, source, faults).entries));
            Replays(cfg, s'.dbs, s'.mem, s'.target, initial)
            <==> PassedAreHeld(cfg, s.dbs, s.mem, s'.mem, sent, s.target)
  {
    var db, r := s.dbs[source], PollOf(cfg, s, source, faults);
    var rows := Tracked(cfg, source, db.captures, r.entries);
    BothReplay(cfg, s, reach, initial);
    assert GoodCursor(db, PollCursor(s.mem, source));
    PollIsFrom(db, PollCursor(s.mem, source), cfg.batchSize, faults);
    CycleUnrolled(cfg, s, source, faults, batchId);
    CycleRuns(cfg, s, source, batchId, r);
    PolledAreBeyond(cfg, s, source, r);
    if r.entries == [] && r.maxLsn == [] {
      assert Run(cfg, s, CycleWith(source, faults, batchId)) == s;
      assert PassedAreHeld(cfg, s.dbs, s.mem, s.mem, Writes(cfg, source, db.captures, rows), s.target);
    } else {
      CycleLeaves(cfg, s, source, batchId, r);
      MoveIff(cfg, s.dbs, s.mem, Run(cfg, s, CycleWith(source, faults, batchId)).mem, s.target, initial, source, rows,
              columns);
    }
  }

  // The tracked rows of a poll lie beyond the acknowledged position, and the cycle's position does not fall.
  lemma PolledAreBeyond(cfg: Config, s: System, source: string, r: PollResult)
    requires source in s.dbs && PollFrom(s.dbs[source], Pos(PollCursor(s.mem, source)), r)
    requires GoodLogs(s.dbs) && Standing(s.dbs, s.mem)
    ensures forall e :: e in Tracked(cfg, source, s.dbs[source].captures, r.entries)
                        ==> e in After(s.dbs[source].log, AckedPos(s.mem, source))
    ensures r.entries != [] || r.maxLsn != []
            ==> AckedPos(s.mem, source) <= Pos(CycleLsn(cfg, source, s.dbs[source], r))
  {
    var db, pos := s.dbs[source], AckedPos(s.mem, source);
    var rows := Tracked(cfg, source, db.captures, r.entries);
    PollIsBeyondAcked(s.mem, source);
    forall e | e in r.entries
      ensures e in After(db.log, pos) && pos < Value(e.lsn)
    {
      FilterMember((x: Entry) => Value(x.lsn) > pos, db.log, e);
    }
    forall e | e in rows
      ensures e in r.entries
    {
      FilterMember((x: Entry) => IsTracked(cfg, source, db.captures, x), r.entries, e);
    }
    if r.entries != [] && rows != [] {
      assert rows[|rows| - 1] in rows && |rows[|rows| - 1].lsn| == LSN_BYTES;
      LastLsnIsLast(rows);
    } else if r.entries != [] {
      assert r.entries[|r.entries| - 1] in r.entries;
    } else if r.maxLsn != [] {
      assert GoodCursor(db, Acked(s.mem, source));
    }
  }

  // ---------- the first batch of a source ----------

  // A batch that is rejected, or not sent because it could not be recorded on disk, is polled again if and only
  // if its source had a cursor before. The first batch of a source that has none moves the position of the next
  // poll behind itself.
  lemma RejectedBatchIsPolledAgainIff(cfg: Config, s: System, source: string, faults: seq<ReadFault>, batchId: string,
                                      saved: bool)
    requires GoodLogs(s.dbs) && Ordered(s) && s.phase == Idle && source in s.dbs
    requires Tracked(cfg, source, s.dbs[source].captures, PollOf(cfg, s, source, faults).entries) != []
    ensures var s' := Run(cfg, s, [PollSource(source, faults, batchId, saved), Reject]);
            s'.dbs == s.dbs && (PollOf(cfg, s', source, faults) == PollOf(cfg, s, source, faults) <==> source in s.mem)
  {
    var r := PollOf(cfg, s, source, faults);
    RejectedRun(cfg, s, source, faults, batchId, saved, r);
    if source !in s.mem {
      var e := r.entries[|r.entries| - 1];
      BehindFirstBatch(cfg, s, source, faults, faults, batchId, saved, e);
    }
  }

  // Where such a batch leaves the client.
  function Rejected(cfg: Config, s: System, source: string, r: PollResult, batchId: string, saved: bool): System
    requires source in s.dbs && r.entries != []
  {
    var count := |Tracked(cfg, source, s.dbs[source].captures, r.entries)|;
    Save(s, RecordPendingBatch(s.mem, source, batchId, r.entries[|r.entries| - 1].lsn, count), saved)
  }

  lemma RejectedRun(cfg: Config, s: System, source: string, faults: seq<ReadFault>, batchId: string, saved: bool,
                    r: PollResult)
    requires s.phase == Idle && source in s.dbs && r == PollOf(cfg, s, source, faults)
    requires Tracked(cfg, source, s.dbs[source].captures, r.entries) != []
    ensures r.entries != []
    ensures Run(cfg, s, [PollSource(source, faults, batchId, saved), Reject])
            == Rejected(cfg, s, source, r, batchId, saved)
  {
    var poll := PollSource(source, faults, batchId, saved);
    assert [poll, Reject] == [poll] + [Reject];
    RunConcat(cfg, s, [poll], [Reject]);
    RunOne(cfg, s, poll);
    RunOne(cfg, Step(cfg, s, poll), Reject);
  }

  lemma BehindFirstBatch(cfg: Config, s: System, source: string, faults: seq<ReadFault>, faults': seq<ReadFault>,
                         batchId: string, saved: bool, e: Entry)
    requires GoodLogs(s.dbs) && Ordered(s) && s.phase == Idle && source in s.dbs && source !in s.mem
    requires Tracked(cfg, source, s.dbs[source].captures, PollOf(cfg, s, source, faults).entries) != []
    requires var entries := PollOf(cfg, s, source, faults).entries;
             entries != [] && Value(e.lsn) <= Value(entries[|entries| - 1].lsn)
    ensures var s' := Run(cfg, s, [PollSource(source, faults, batchId, saved), Reject]);
            s'.dbs == s.dbs && e !in PollOf(cfg, s', source, faults').entries
  {
    var r := PollOf(cfg, s, source, faults);
    var last := r.entries[|r.entries| - 1];
    RejectedRun(cfg, s, source, faults, batchId, saved, r);
    PollBeyondCursor(s.dbs[source], PollCursor(s.mem, source), cfg.batchSize, faults, last);
    assert GoodEntry(s.dbs[source], last);
    var s' := Rejected(cfg, s, source, r, batchId, saved);
    assert PollCursor(s'.mem, source) == last.lsn;
    if e in PollOf(cfg, s', source, faults').entries {
      PollBeyondCursor(s.dbs[source], last.lsn, cfg.batchSize, faults', e);
    }
  }

  // A first batch that is rejected, then an empty poll: the cursor ends up at the end of the log.
  lemma RejectedThenEmpty(cfg: Config, s: System, source: string, faults: seq<ReadFault>, batchId: string,
                          nextId: string, r: PollResult)
    requires s.phase == Idle && s.mem == map[] && source in s.dbs && WellFormed(s.dbs[source])
    requires r == PollOf(cfg, s, source, faults)
    requires Tracked(cfg, source, s.dbs[source].captures, r.entries) != [] && r.entries != []
    requires After(s.dbs[source].log, Value(r.entries[|r.entries| - 1].lsn)) == []
    ensures var s' := Run(cfg, s,
                          [PollSource(source, faults, batchId, true), Reject] + [PollSource(source, [], nextId, true)]);
            s'.dbs == s.dbs && s'.target == s.target && Acked(s'.mem, source) == s.dbs[source].maxLsn
  {
    var last := r.entries[|r.entries| - 1];
    var s1 := Rejected(cfg, s, source, r, batchId, true);
    RejectedRun(cfg, s, source, faults, batchId, true, r);
    PollBeyondCursor(s.dbs[source], [], cfg.batchSize, faults, last);
    assert GoodEntry(s.dbs[source], last);
    RunConcat(cfg, s, [PollSource(source, faults, batchId, true), Reject], [PollSource(source, [], nextId, true)]);
    RunOne(cfg, s1, PollSource(source, [], nextId, true));
    NothingBehindLast(cfg, s1.dbs[source], last.lsn);
    EmptyPollStep(cfg, s1, source, nextId, s.dbs[source].maxLsn);
  }

  // So a rejected first batch after which the source stays quiet is lost.
  lemma RejectedFirstBatchIsLost(cfg: Config, s: System, initial: DB, source: string, faults: seq<ReadFault>,
                                 batchId: string, nextId: string,
                                 r: PollResult, e: Entry, key: Key, op: CellOp)
    requires Initial(cfg, s, initial) && source in s.dbs
    requires LoneWrite(cfg, source, s.dbs[source], e, key, op)
    requires Lookup(initial, key) != StepCell(op, Lookup(initial, key))
    requires r == PollOf(cfg, s, source, faults)
    requires Tracked(cfg, source, s.dbs[source].captures, r.entries) != [] && r.entries != []
    requires After(s.dbs[source].log, Value(r.entries[|r.entries| - 1].lsn)) == []
    ensures var s' := Run(cfg, s,
                          [PollSource(source, faults, batchId, true), Reject] + [PollSource(source, [], nextId, true)]);
            !Replays(cfg, s'.dbs, s'.mem, s'.target, initial)
  {
    RejectedThenEmpty(cfg, s, source, faults, batchId, nextId, r);
    assert GoodEntry(s.dbs[source], e);
    var c := Run(cfg, s,
                 [PollSource(source, faults, batchId, true), Reject] + [PollSource(source, [], nextId, true)]).mem;
    PassedUnsentIsLost(cfg, s.dbs, c, initial, initial, source, [], e, key, op);
  }

  lemma EmptyPollStep(cfg: Config, s: System, source: string, batchId: string, maxLsn: Lsn)
    requires s.phase == Idle && source in s.dbs && PollOf(cfg, s, source, []) == PollResult([], maxLsn) && maxLsn != []
    ensures Step(cfg, s, PollSource(source, [], batchId, true))
            == Save(s, UpdateCursor(s.mem, source, "no-changes-" + batchId, maxLsn), true)
  {
  }

  lemma NothingBehindLast(cfg: Config, db: SourceDb, last: Lsn)
    requires WellFormed(db) && |last| == LSN_BYTES && Value(last) <= Pos(db.maxLsn) && After(db.log, Value(last)) == []
    ensures Poll(db, last, cfg.batchSize, []) == PollResult([], db.maxLsn)
  {
    var entries := Poll(db, last, cfg.batchSize, []).entries;
    if entries != [] {
      PollBeyondCursor(db, last, cfg.batchSize, [], entries[0]);
    }
    IncrementIsSuccessor(last);
  }

  // ---------- batch size zero ----------

  lemma {:induction false} ZeroBatchReadsNothing(db: SourceDb, i: nat, start: Lsn, faults: seq<ReadFault>)
    requires i <= |db.captures|
    ensures ReadTables(db, i, start, 0, faults, []) == []
    decreases |db.captures| - i
  {
    if i < |db.captures| && FaultAt(faults, i).Skipped? {
      ZeroBatchReadsNothing(db, i + 1, start, faults);
    } else if i < |db.captures| {
      WindowRows(db, i, start, 0);
    }
  }

  // With batch size zero a poll is empty, and closed only if no tracked row remains.
  lemma ZeroBatchIsNotClosed(cfg: Config, source: string, db: SourceDb, from: Lsn, faults: seq<ReadFault>, i: nat)
    requires WellFormed(db) && GoodCursor(db, from) && cfg.batchSize == 0
    requires i < |db.captures| && TargetOf(cfg, source, db.captures[i]).Some? && Of(After(db.log, Pos(from)), i) != []
    ensures Poll(db, from, 0, faults).entries == []
    ensures !ClosedPoll(cfg, source, db, Pos(from), Poll(db, from, 0, faults))
  {
    var all := Of(After(db.log, Pos(from)), i);
    var e := all[0];
    FilterMember((x: Entry) => x.capture == i, After(db.log, Pos(from)), e);
    FilterMember((x: Entry) => Value(x.lsn) > Pos(from), db.log, e);
    assert GoodEntry(db, e);
    StartIsNext(db, from);
    ZeroBatchReadsNothing(db, 0, StartLsn(db, from), faults);
    assert Of([], i) == [];
    CoversIff(db.log, Pos(from), [], Pos(db.maxLsn), i);
  }

  // ---------- two tables with one target table ----------

  lemma OfSnoc(rows: seq<Entry>, e: Entry, k: nat)
    ensures Of(rows + [e], k) == if e.capture == k then Of(rows, k) + [e] else Of(rows, k)
  {
    FilterConcat((x: Entry) => x.capture == k, rows, [e]);
    assert [e][1..] == [];
  }

  lemma OneGrouped(rows: seq<Entry>, e: Entry)
    requires forall k: nat :: Of(rows, k) == if k == e.capture then [e] else []
    ensures rows == [e]
  {
    var n := |rows| - 1;
    assert Of(rows, e.capture) == [e];
    OfSnoc(rows[..n], rows[n], rows[n].capture);
    assert rows == rows[..n] + [rows[n]] && Of(rows, rows[n].capture) == [rows[n]];
    if n > 0 {
      OfSomeTable(rows[..n], rows[0]);
      OfSnoc(rows[..n], rows[n], rows[0].capture);
    }
  }

  lemma TwoGrouped(rows: seq<Entry>, first: Entry, second: Entry)
    requires Grouped(rows) && first.capture < second.capture
    requires forall k: nat :: Of(rows, k) == if k == first.capture then [first]
                                             else if k == second.capture then [second] else []
    ensures rows == [first, second]
  {
    LastOfGroups(rows, second.capture);
    var init := rows[..|rows| - 1];
    assert rows == init + [second];
    forall k: nat
      ensures Of(init, k) == if k == first.capture then [first] else []
    {
      OfSnoc(init, second, k);
    }
    OneGrouped(init, first);
  }

  // The log of one transaction: a row of one table, and then a row of a table that is read before it; both write
  // the same key of the target.
  predicate Crossed(cfg: Config, source: string, db: SourceDb, early: Entry, late: Entry, key: Key, a: CellOp,
                    b: CellOp) {
    && db.log == [early, late] && early.lsn == late.lsn && late.capture < early.capture && WellFormed(db)
    && EntryWrites(cfg, source, db.captures, early) == [Write(key, a)]
    && EntryWrites(cfg, source, db.captures, late) == [Write(key, b)]
  }

  lemma CrossedPoll(cfg: Config, source: string, db: SourceDb, early: Entry, late: Entry)
    requires db.log == [early, late] && late.capture < early.capture && WellFormed(db) && cfg.batchSize > 2
    ensures Poll(db, [], cfg.batchSize, []).entries == [late, early]
  {
    var rows := Poll(db, [], cfg.batchSize, []).entries;
    FilterAll((e: Entry) => Value(e.lsn) > -1, db.log);
    PolledRows(cfg, source, db, [], []);
    assert db.log == [] + [early] + [late] && GoodEntry(db, early);
    forall k: nat
      ensures Of(rows, k) == if k == late.capture then [late] else if k == early.capture then [early] else []
    {
      OfSnoc([], early, k);
      OfSnoc([] + [early], late, k);
      if k < |db.captures| {
        SmallPollCovers(db, [], cfg.batchSize, [], k, 0);
      } else {
        FilterAll((e: Entry) => e.capture == k, rows);
      }
    }
    TwoGrouped(rows, late, early);
  }

  // With one database, the backlog is that of its source.
  lemma {:induction false} OnlyBacklog(cfg: Config, dbs: Databases, c: Cursors, n: nat, k: nat)
    requires n < |cfg.sources| && k <= |cfg.sources| && dbs.Keys == {cfg.sources[n]}
    requires forall i, j :: 0 <= i < j < |cfg.sources| ==> cfg.sources[i] != cfg.sources[j]
    ensures BacklogFrom(cfg, dbs, c, k) == if k <= n then SourceBacklog(cfg, dbs, c, cfg.sources[n]) else []
    decreases |cfg.sources| - k
  {
    if k < |cfg.sources| {
      OnlyBacklog(cfg, dbs, c, n, k + 1);
      var own := SourceBacklog(cfg, dbs, c, cfg.sources[n]);
      assert own + [] == own;
    }
  }

  lemma TwoWrites(cfg: Config, source: string, caps: seq<Capture>, first: Entry, second: Entry, key: Key, a: CellOp,
                  b: CellOp, db: DB)
    requires EntryWrites(cfg, source, caps, first) == [Write(key, a)]
    requires EntryWrites(cfg, source, caps, second) == [Write(key, b)]
    ensures Lookup(Apply(Writes(cfg, source, caps, [first, second]), db), key)
            == StepCell(b, StepCell(a, Lookup(db, key)))
  {
    assert [first, second][1..] == [second] && [second][1..] == [];
    var x, y := Write(key, a), Write(key, b);
    assert Writes(cfg, source, caps, [second]) == [y] && Writes(cfg, source, caps, [first, second]) == [x, y];
    assert [x, y][1..] == [y] && [y][1..] == [];
    assert Lookup(ApplyOne(x, db), key) == StepCell(a, Lookup(db, key));
    assert Apply([x, y], db) == Apply([y], ApplyOne(x, db)) == ApplyOne(y, ApplyOne(x, db));
  }

  function Alone(source: string, db: SourceDb, initial: DB): System {
    System(map[source := db], map[], map[], initial, Idle, [])
  }

  // The cycle applies the rows in the order of the tables and passes both.
  lemma CrossedCycle(cfg: Config, source: string, db: SourceDb, initial: DB, early: Entry, late: Entry, key: Key,
                     a: CellOp, b: CellOp, batchId: string)
    requires Crossed(cfg, source, db, early, late, key, a, b) && cfg.batchSize > 2
    ensures var s := Alone(source, db, initial); var s' := Run(cfg, s, Cycle(source, batchId));
            && SafeRun(cfg, s, map[], Cycle(source, batchId))
            && s'.dbs == s.dbs && Acked(s'.mem, source) == early.lsn
            && Lookup(s'.target, key) == StepCell(a, StepCell(b, Lookup(initial, key)))
  {
    var s, caps, rows := Alone(source, db, initial), db.captures, [late, early];
    FilterAll((e: Entry) => Value(e.lsn) > -1, db.log);
    SmallRemainderClosed(cfg, source, db, -1);
    CycleIsSafe(cfg, s, map[], source, batchId);
    CrossedPoll(cfg, source, db, early, late);
    FilterAll((e: Entry) => IsTracked(cfg, source, caps, e), rows);
    assert GoodEntry(db, early);
    LastLsnIsLast(rows);
    CycleUnrolled(cfg, s, source, [], batchId);
    CycleLeaves(cfg, s, source, batchId, PollOf(cfg, s, source, []));
    TwoWrites(cfg, source, caps, late, early, key, b, a, initial);
  }

  lemma CrossedReplicated(cfg: Config, n: nat, db: SourceDb, initial: DB, early: Entry, late: Entry, key: Key,
                          a: CellOp, b: CellOp, c: Cursors)
    requires n < |cfg.sources| && Crossed(cfg, cfg.sources[n], db, early, late, key, a, b)
    requires forall i, j :: 0 <= i < j < |cfg.sources| ==> cfg.sources[i] != cfg.sources[j]
    requires Acked(c, cfg.sources[n]) == early.lsn
    ensures var dbs := map[cfg.sources[n] := db];
            && Backlog(cfg, dbs, c) == []
            && Lookup(Replicated(cfg, dbs, initial), key) == StepCell(b, StepCell(a, Lookup(initial, key)))
  {
    var source := cfg.sources[n];
    var dbs := map[source := db];
    assert GoodEntry(db, early);
    FilterAll((e: Entry) => Value(e.lsn) > Value(early.lsn), db.log);
    FilterAll((e: Entry) => Value(e.lsn) > -1, db.log);
    OnlyBacklog(cfg, dbs, c, n, 0);
    OnlyBacklog(cfg, dbs, map[], n, 0);
    TwoWrites(cfg, source, db.captures, early, late, key, a, b, initial);
  }

  // Whatever the configuration: if two captured tables of a source write to one key of a target table, and it
  // matters in which order, there is a log over which a run from a fresh start, safe in every other respect, breaks
  // replay.
  lemma SharedTargetBreaks(cfg: Config, n: nat, db: SourceDb, initial: DB, early: Entry, late: Entry, key: Key,
                           a: CellOp, b: CellOp, batchId: string)
    requires n < |cfg.sources| && Crossed(cfg, cfg.sources[n], db, early, late, key, a, b) && cfg.batchSize > 2
    requires forall i, j :: 0 <= i < j < |cfg.sources| ==> cfg.sources[i] != cfg.sources[j]
    requires StepCell(a, StepCell(b, Lookup(initial, key))) != StepCell(b, StepCell(a, Lookup(initial, key)))
    ensures var s, cycle := Alone(cfg.sources[n], db, initial), Cycle(cfg.sources[n], batchId);
            var s' := Run(cfg, s, cycle);
            SafeRun(cfg, s, map[], cycle) && !Replays(cfg, s'.dbs, s'.mem, s'.target, initial)
  {
    var source := cfg.sources[n];
    var s' := Run(cfg, Alone(source, db, initial), Cycle(source, batchId));
    CrossedCycle(cfg, source, db, initial, early, late, key, a, b, batchId);
    CrossedReplicated(cfg, n, db, initial, early, late, key, a, b, s'.mem);
    LostKey(cfg, s'.dbs, s'.mem, s'.target, initial, key);
  }
}
