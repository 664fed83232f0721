// The invariant of the replication protocol, and what replay makes of it.
module Invariant {
  import opened Common
  import opened Lsn
  import opened Replica
  import opened Source
  import opened Coverage
  import opened Cursors
  import opened Protocol
  import opened Replay

  // Where cursors can stand: the acknowledged positions, and those the next polls start from.
  predicate Standing(dbs: Databases, c: Cursors) {
    forall source :: source in dbs ==>
                       GoodCursor(dbs[source], Acked(c, source)) && GoodCursor(dbs[source], PollCursor(c, source))
  }

  predicate Behind(dbs: Databases, c: Cursors, c': Cursors) {
    forall source :: source in dbs ==> AckedPos(c, source) <= AckedPos(c', source)
  }

  // The cursor on disk is never ahead of the one in memory.
  predicate GoodCursors(dbs: Databases, mem: Cursors, disk: Cursors) {
    Standing(dbs, mem) && Standing(dbs, disk) && Behind(dbs, disk, mem)
  }

  predicate GoodReach(dbs: Databases, reach: Reach) {
    forall source :: source in dbs ==> GoodCursor(dbs[source], Reached(reach, source))
  }

  // Every source at its confirmed position.
  function FarCursors(c: Cursors, reach: Reach): Cursors {
    map source | source in c.Keys + reach.Keys :: CursorState([], Some(Far(c, reach, source)), [])
  }

  // Replay is right from the confirmed positions.
  predicate FarReplays(cfg: Config, dbs: Databases, mem: Cursors, reach: Reach, target: DB, initial: DB) {
    Replays(cfg, dbs, FarCursors(mem, reach), target, initial)
  }

  // A batch on its way is good from a position that is confirmed and that the cursor has not passed.
  predicate GoodFrom(cfg: Config, dbs: Databases, mem: Cursors, reach: Reach, source: string, rows: seq<Entry>,
                     from: Lsn) {
    && source in dbs && GoodCursor(dbs[source], from)
    && AckedPos(mem, source) <= Pos(from) <= Pos(Base(mem, reach, source))
    && GoodBatch(cfg, source, dbs[source], Pos(from), rows)
  }

  predicate GoodAck(dbs: Databases, mem: Cursors, reach: Reach, source: string, lsn: Lsn) {
    && source in dbs && |lsn| == LSN_BYTES && Value(lsn) <= Pos(dbs[source].maxLsn)
    && AckedPos(mem, source) < Value(lsn) <= Pos(Reached(reach, source))
  }

  ghost predicate GoodPhase(cfg: Config, dbs: Databases, mem: Cursors, reach: Reach, phase: Phase) {
    match phase
    case Idle => true
    case InFlight(source, batchId, rows) => exists from :: GoodFrom(cfg, dbs, mem, reach, source, rows, from)
    case Confirmed(source, batchId, lsn) => GoodAck(dbs, mem, reach, source, lsn)
  }

  predicate GoodAbandoned(cfg: Config, dbs: Databases, abandoned: seq<Abandoned>) {
    forall b :: b in abandoned && b.source in dbs ==> TableOrder(cfg, b.source, dbs[b.source], b.rows)
  }

  // Where everything stands.
  ghost predicate Sound(cfg: Config, s: System, reach: Reach) {
    && GoodCursors(s.dbs, s.mem, s.disk)
    && GoodReach(s.dbs, reach)
    && GoodPhase(cfg, s.dbs, s.mem, reach, s.phase)
    && GoodAbandoned(cfg, s.dbs, s.abandoned)
  }

  ghost predicate Inv(cfg: Config, s: System, reach: Reach, initial: DB) {
    && GoodDatabases(cfg, s.dbs)
    && Sound(cfg, s, reach)
    && FarReplays(cfg, s.dbs, s.mem, reach, s.target, initial)
  }

  lemma FarAcked(c: Cursors, reach: Reach)
    ensures forall source :: Acked(FarCursors(c, reach), source) == Far(c, reach, source)
  {
  }

  lemma InvAtStart(cfg: Config, s: System, initial: DB)
    requires Initial(cfg, s, initial)
    ensures Inv(cfg, s, map[], initial)
  {
    assert FarCursors(map[], map[]) == map[];
  }

  // The confirmed positions are at or ahead of the cursors in memory, and those of the cursors on disk.
  lemma BothReplay(cfg: Config, s: System, reach: Reach, initial: DB)
    requires Inv(cfg, s, reach, initial)
    ensures Replays(cfg, s.dbs, s.mem, s.target, initial) && Replays(cfg, s.dbs, s.disk, s.target, initial)
  {
    FarAcked(s.mem, reach);
    EarlierReplays(cfg, s.dbs, FarCursors(s.mem, reach), s.mem, s.target, initial);
    EarlierReplays(cfg, s.dbs, FarCursors(s.mem, reach), s.disk, s.target, initial);
  }

  // What is confirmed after a change, compared with what replays after it.
  lemma FarIs(cfg: Config, dbs: Databases, mem: Cursors, reach: Reach, target: DB, initial: DB, c: Cursors)
    requires GoodDatabases(cfg, dbs) && Replays(cfg, dbs, c, target, initial)
    requires forall source :: source in dbs ==> Pos(Far(mem, reach, source)) <= AckedPos(c, source)
    ensures FarReplays(cfg, dbs, mem, reach, target, initial)
  {
    FarAcked(mem, reach);
    EarlierReplays(cfg, dbs, c, FarCursors(mem, reach), target, initial);
  }

  // The same where one source's confirmed position was moved.
  lemma FarMoved(cfg: Config, dbs: Databases, mem: Cursors, reach: Reach, mem': Cursors, reach': Reach, target: DB,
                 initial: DB, source: string, lsn: Lsn)
    requires GoodDatabases(cfg, dbs) && Replays(cfg, dbs, At(FarCursors(mem, reach), source, lsn), target, initial)
    requires Pos(Far(mem', reach', source)) <= Pos(lsn)
    requires forall other :: other != source ==> Far(mem', reach', other) == Far(mem, reach, other)
    ensures FarReplays(cfg, dbs, mem', reach', target, initial)
  {
    FarAcked(mem, reach);
    AtMoves(FarCursors(mem, reach), source, lsn);
    FarIs(cfg, dbs, mem', reach', target, initial, At(FarCursors(mem, reach), source, lsn));
  }
}
