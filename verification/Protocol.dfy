// The replication protocol as a transition system.
//
// A run is a sequence of events; every choice the environment makes is part of an event, so a step is
// a function. `Safe` collects what the code relies on; the theorem is that along safe runs,
// replaying whatever lies beyond a cursor onto the target gives the completely replicated tables.
module Protocol {
  import opened Common
  import opened Lsn
  import opened Replica
  import opened Mapping
  import opened Sequences
  import opened Source
  import opened Coverage
  import opened Changes
  import opened Cursors

  datatype Config = Config(sources: seq<string>, tracked: seq<TrackedTable>, mappings: seq<SchemaMapping>,
                           batchSize: nat)

  type Databases = map<string, SourceDb>

  // ---------- the writes of a source ----------

  // Where a captured table's rows go: through the client's mapping, then the server's overrides.
  function TargetOf(cfg: Config, source: string, cap: Capture): Option<string> {
    match Resolve(cfg.sources, cfg.tracked, source, cap.schema, cap.table)
    case Some(tt) => Some(Dotted(MapSchema(cfg.mappings, tt.targetSchema), tt.targetTable))
    case None => None
  }

  predicate IsTracked(cfg: Config, source: string, captures: seq<Capture>, e: Entry) {
    e.capture < |captures| && TargetOf(cfg, source, captures[e.capture]).Some?
  }

  // The rows the client keeps of a poll.
  function Tracked(cfg: Config, source: string, captures: seq<Capture>, rows: seq<Entry>): seq<Entry> {
    Filter((e: Entry) => IsTracked(cfg, source, captures, e), rows)
  }

  function EntryWrites(cfg: Config, source: string, captures: seq<Capture>, e: Entry): seq<Write> {
    if IsTracked(cfg, source, captures, e) then
      var cap := captures[e.capture];
      OpWrites(OperationOf(e.op), TargetOf(cfg, source, cap).value, KeyData(cap.columns, e.values),
               RowData(cap.columns, e.values))
    else []
  }

  function Writes(cfg: Config, source: string, captures: seq<Capture>, rows: seq<Entry>): seq<Write> {
    if rows == [] then []
    else EntryWrites(cfg, source, captures, rows[0]) + Writes(cfg, source, captures, rows[1..])
  }

  function SourceBacklog(cfg: Config, dbs: Databases, cursors: Cursors, source: string): seq<Write> {
    if source in dbs then Writes(cfg, source, dbs[source].captures, After(dbs[source].log, AckedPos(cursors, source)))
    else []
  }

  // Everything beyond the acknowledged cursors, from the k-th source on.
  function BacklogFrom(cfg: Config, dbs: Databases, cursors: Cursors, k: nat): seq<Write>
    requires k <= |cfg.sources|
    decreases |cfg.sources| - k
  {
    if k == |cfg.sources| then []
    else SourceBacklog(cfg, dbs, cursors, cfg.sources[k]) + BacklogFrom(cfg, dbs, cursors, k + 1)
  }

  function Backlog(cfg: Config, dbs: Databases, cursors: Cursors): seq<Write> {
    BacklogFrom(cfg, dbs, cursors, 0)
  }

  // The replicated tables: all logs played from their beginning onto the initial target.
  function Replicated(cfg: Config, dbs: Databases, initial: DB): DB {
    Apply(Backlog(cfg, dbs, map[]), initial)
  }

  predicate Replays(cfg: Config, dbs: Databases, cursors: Cursors, target: DB, initial: DB) {
    Apply(Backlog(cfg, dbs, cursors), target) == Replicated(cfg, dbs, initial)
  }

  // ---------- states and events ----------

  // Where the client stands in a cycle: between cycles; with a batch on its way; or with the
  // server's commit done and its acknowledgment (carrying `lsn`) on its way back.
  datatype Phase =
    | Idle
    | InFlight(source: string, batchId: string, rows: seq<Entry>)
    | Confirmed(source: string, batchId: string, lsn: Lsn)

  // A batch the client gave up on; the server may still commit it.
  datatype Abandoned = Abandoned(source: string, rows: seq<Entry>)

  datatype System = System(dbs: Databases, mem: Cursors, disk: Cursors, target: DB,
                           phase: Phase, abandoned: seq<Abandoned>)

  datatype Event =
    | Append(source: string, rows: seq<Entry>, maxLsn: Lsn) // the capture job harvests transactions
    | PollSource(source: string, faults: seq<ReadFault>, batchId: string, saved: bool)
    | Commit                                                // the server applies the batch in flight
    | Reject                                                // it rolls back: RETRY, FAILED or SCHEMA_MISMATCH
    | Lose                                                  // the stream breaks, outcome unknown to the client
    | AckArrives(saved: bool)
    | AckLost
    | LateCommit(index: nat)                                // an abandoned batch commits after all
    | Crash                                                 // the client restarts from its state file

  // A cursor update in memory and the attempt to persist it.
  function Save(s: System, cursors: Cursors, saved: bool): System {
    s.(mem := cursors, disk := if saved then cursors else s.disk)
  }

  // The LSN an acknowledgment carries: the last one that is not empty.
  function LastLsn(rows: seq<Entry>): Lsn {
    LastNonEmpty((e: Entry) => e.lsn, rows)
  }

  // What the client does with the result of a poll, up to sending a batch.
  function AfterPoll(cfg: Config, s: System, source: string, r: PollResult, batchId: string, saved: bool): System
    requires source in s.dbs
  {
    if r.entries == [] then
      if r.maxLsn == [] then s
      else Save(s, UpdateCursor(s.mem, source, "no-changes-" + batchId, r.maxLsn), saved)
    else
      var lastLsn := r.entries[|r.entries| - 1].lsn;
      var valid := Tracked(cfg, source, s.dbs[source].captures, r.entries);
      if valid == [] then
        Save(s, UpdateCursor(s.mem, source, "local-skip-" + batchId, lastLsn), saved)
      else
        Save(s, RecordPendingBatch(s.mem, source, batchId, lastLsn, |valid|), saved)
        .(phase := if saved then InFlight(source, batchId, valid) else Idle)
  }

  function PollOf(cfg: Config, s: System, source: string, faults: seq<ReadFault>): PollResult
    requires source in s.dbs
  {
    Poll(s.dbs[source], PollCursor(s.mem, source), cfg.batchSize, faults)
  }

  function Step(cfg: Config, s: System, ev: Event): System {
    match ev
    case Append(source, rows, maxLsn) =>
      if source in s.dbs then
        s.(dbs := s.dbs[source := s.dbs[source].(log := s.dbs[source].log + rows, maxLsn := maxLsn)])
      else s
    case PollSource(source, faults, batchId, saved) =>
      if s.phase.Idle? && source in s.dbs
      then AfterPoll(cfg, s, source, PollOf(cfg, s, source, faults), batchId, saved) else s
    case Commit =>
      if s.phase.InFlight? && s.phase.source in s.dbs then
        s.(target := Apply(Writes(cfg, s.phase.source, s.dbs[s.phase.source].captures, s.phase.rows), s.target),
           phase := Confirmed(s.phase.source, s.phase.batchId, LastLsn(s.phase.rows)))
      else s
    case Reject => if s.phase.InFlight? then s.(phase := Idle) else s
    case Lose => if s.phase.InFlight? then GiveUp(s) else s
    case AckArrives(saved) =>
      if s.phase.Confirmed? then
        Save(s, UpdateCursor(s.mem, s.phase.source, s.phase.batchId, s.phase.lsn), saved).(phase := Idle)
      else s
    case AckLost => if s.phase.Confirmed? then s.(phase := Idle) else s
    case LateCommit(i) =>
      if i < |s.abandoned| && s.abandoned[i].source in s.dbs then
        var b := s.abandoned[i];
        s.(target := Apply(Writes(cfg, b.source, s.dbs[b.source].captures, b.rows), s.target))
      else s
    case Crash => GiveUp(s).(mem := s.disk)
  }

  function GiveUp(s: System): System {
    if s.phase.InFlight?
    then s.(phase := Idle, abandoned := s.abandoned + [Abandoned(s.phase.source, s.phase.rows)])
    else s.(phase := Idle)
  }

  function Run(cfg: Config, s: System, evs: seq<Event>): System
    decreases evs
  {
    if evs == [] then s else Run(cfg, Step(cfg, s, evs[0]), evs[1..])
  }

  // ---------- what the code relies on ----------

  // A poll that moves the cursor to `newPos` on behalf of `rows` skips no tracked row.
  predicate Covers(cfg: Config, source: string, db: SourceDb, pos: int, rows: seq<Entry>, newPos: int) {
    forall i :: 0 <= i < |db.captures| && TargetOf(cfg, source, db.captures[i]).Some?
                ==> CoversTable(db.log, pos, rows, newPos, i)
  }

  // A closed poll: whichever of the three ways the cursor will move, what it passes was returned.
  predicate ClosedPoll(cfg: Config, source: string, db: SourceDb, pos: int, r: PollResult) {
    var valid := Tracked(cfg, source, db.captures, r.entries);
    if r.entries == [] then r.maxLsn != [] ==> Covers(cfg, source, db, pos, [], Pos(r.maxLsn))
    else if valid == [] then Covers(cfg, source, db, pos, [], Value(r.entries[|r.entries| - 1].lsn))
    else Covers(cfg, source, db, pos, valid, Value(valid[|valid| - 1].lsn))
  }

  // A closed batch: tracked rows beyond a position, a prefix of every table's, whose last LSN the cursor may
  // move to.
  predicate GoodBatch(cfg: Config, source: string, db: SourceDb, pos: int, rows: seq<Entry>) {
    && rows != []
    && (forall e :: e in rows ==> e in After(db.log, pos) && e in db.log)
    && (forall i :: 0 <= i < |db.captures| && TargetOf(cfg, source, db.captures[i]).Some?
                    ==> Of(rows, i) <= Of(After(db.log, pos), i))
    && Covers(cfg, source, db, pos, rows, Value(rows[|rows| - 1].lsn))
  }

  // What the target has caught up with beyond what the client knows: for a source, the LSN up to which the
  // server has committed its batches. No part of the system holds it; it is worked out along a run.
  type Reach = map<string, Lsn>

  function Later(a: Lsn, b: Lsn): Lsn {
    if Pos(a) >= Pos(b) then a else b
  }

  function Earlier(a: Lsn, b: Lsn): Lsn {
    if Pos(a) <= Pos(b) then a else b
  }

  function Reached(reach: Reach, source: string): Lsn {
    if source in reach then reach[source] else []
  }

  // How far a source is confirmed: acknowledged, or committed with the acknowledgment lost.
  function Far(c: Cursors, reach: Reach, source: string): Lsn {
    Later(Acked(c, source), Reached(reach, source))
  }

  // What is confirmed of a source before the position of its next poll.
  function Base(c: Cursors, reach: Reach, source: string): Lsn {
    Earlier(PollCursor(c, source), Far(c, reach, source))
  }

  // The confirmed position that the client's next move of the source's cursor builds on.
  function Relied(s: System, reach: Reach, source: string): Lsn {
    if s.phase.Confirmed? && s.phase.source == source then Far(s.mem, reach, source)
    else if s.phase.InFlight? && s.phase.source == source then Base(s.mem, reach, source)
    else Acked(s.mem, source)
  }

  // Of every key a batch writes, its writes up to a position are the last ones up to that position: nothing
  // newer of the key has been passed. (A batch all of whose rows lie beyond the position is the simplest case.)
  predicate LastPassed(cfg: Config, source: string, db: SourceDb, pos: int, rows: seq<Entry>) {
    forall w :: w in Writes(cfg, source, db.captures, rows) ==>
                  IsSuffix(On(Writes(cfg, source, db.captures, UpTo(rows, pos)), w.key),
                           On(Writes(cfg, source, db.captures, UpTo(db.log, pos)), w.key))
  }

  predicate LateAt(cfg: Config, dbs: Databases, b: Abandoned, position: Lsn)
    requires b.source in dbs
  {
    LastPassed(cfg, b.source, dbs[b.source], Pos(position), b.rows)
  }

  // A commit takes the target to its last row, a late one too if its batch is closed from the confirmed position
  // on; otherwise a late one takes it at worst back to where the client stands.
  function NextReach(cfg: Config, s: System, reach: Reach, ev: Event): Reach {
    if ev.Commit? && s.phase.InFlight? && s.phase.source in s.dbs then reach[s.phase.source := LastLsn(s.phase.rows)]
    else if ev.LateCommit? && ev.index < |s.abandoned| && s.abandoned[ev.index].source in s.dbs then
      var b := s.abandoned[ev.index];
      var far := Far(s.mem, reach, b.source);
      if GoodBatch(cfg, b.source, s.dbs[b.source], Pos(far), b.rows) then reach[b.source := LastLsn(b.rows)]
      else if LateAt(cfg, s.dbs, b, far) then reach
      else reach[b.source := Relied(s, reach, b.source)]
    else reach
  }

  predicate Safe(cfg: Config, s: System, reach: Reach, ev: Event) {
    match ev
    case Append(source, rows, maxLsn) =>
      source in s.dbs ==>
        && WellFormed(s.dbs[source].(log := s.dbs[source].log + rows, maxLsn := maxLsn))
        && Pos(s.dbs[source].maxLsn) <= Pos(maxLsn)
        && (forall e :: e in rows ==> Pos(s.dbs[source].maxLsn) < Value(e.lsn))
    case PollSource(source, faults, batchId, saved) =>
      s.phase.Idle? && source in s.dbs ==>
        ClosedPoll(cfg, source, s.dbs[source], Pos(Base(s.mem, reach, source)), PollOf(cfg, s, source, faults))
    case LateCommit(i) =>
      i < |s.abandoned| && s.abandoned[i].source in s.dbs ==>
        var b := s.abandoned[i];
        LateAt(cfg, s.dbs, b, Far(s.mem, reach, b.source)) || LateAt(cfg, s.dbs, b, Relied(s, reach, b.source))
    case _ => true
  }

  predicate SafeRun(cfg: Config, s: System, reach: Reach, evs: seq<Event>)
    decreases evs
  {
    evs != [] ==>
      && Safe(cfg, s, reach, evs[0])
      && SafeRun(cfg, Step(cfg, s, evs[0]), NextReach(cfg, s, reach, evs[0]), evs[1..])
  }

  function ReachAfter(cfg: Config, s: System, reach: Reach, evs: seq<Event>): Reach
    decreases evs
  {
    if evs == [] then reach
    else ReachAfter(cfg, Step(cfg, s, evs[0]), NextReach(cfg, s, reach, evs[0]), evs[1..])
  }

  // The i-th captured table of a source reaches this target table.
  predicate Feeds(cfg: Config, dbs: Databases, source: string, i: nat, table: string) {
    source in dbs && i < |dbs[source].captures| && TargetOf(cfg, source, dbs[source].captures[i]) == Some(table)
  }

  predicate Owns(cfg: Config, dbs: Databases, source: string, table: string) {
    source in dbs && exists i :: 0 <= i < |dbs[source].captures| && Feeds(cfg, dbs, source, i, table)
  }

  // Different tracked tables, of one source or of two, reach different target tables.
  ghost predicate DistinctTargets(cfg: Config, dbs: Databases) {
    && (forall i, j :: 0 <= i < j < |cfg.sources| ==> cfg.sources[i] != cfg.sources[j])
    && (forall source :: source in dbs ==> source in cfg.sources)
    && (forall source, source', i: nat, j: nat, table ::
          Feeds(cfg, dbs, source, i, table) && Feeds(cfg, dbs, source', j, table) ==> source == source' && i == j)
  }

  // The client starts without a state file, or with an empty one, in front of databases whose logs are
  // still complete.
  ghost predicate Initial(cfg: Config, s: System, initial: DB) {
    && DistinctTargets(cfg, s.dbs)
    && (forall source :: source in s.dbs ==> WellFormed(s.dbs[source]))
    && s.mem == map[] && s.disk == map[] && s.target == initial && s.phase == Idle && s.abandoned == []
  }
}
