// Convergence: a log that has stopped growing is drained by confirmed cycles, and the target ends up
// holding the replicated tables.
module Drain {
  import opened Lsn
  import opened Replica
  import opened Sequences
  import opened Source
  import opened Coverage
  import opened Cursors
  import opened Protocol
  import opened Invariant
  import opened Safety
  import opened Progress

  // One cycle of a source in which saving, sending and answering work.
  function CycleWith(source: string, faults: seq<ReadFault>, batchId: string): seq<Event> {
    [PollSource(source, faults, batchId, true), Commit, AckArrives(true)]
  }

  // An undisturbed one.
  function Cycle(source: string, batchId: string): seq<Event> {
    CycleWith(source, [], batchId)
  }

  // Everything beyond the acknowledged position, tracked or not.
  function Remaining(s: System, source: string): nat
    requires source in s.dbs
  {
    |After(s.dbs[source].log, AckedPos(s.mem, source))|
  }

  // ---------- a poll finds something whenever something remains ----------

  lemma {:induction false} EmptyReadMeansEmptyWindows(db: SourceDb, i: nat, start: Lsn, batchSize: nat, capture: nat)
    requires i <= capture < |db.captures| && batchSize > 0
    requires ReadTables(db, i, start, batchSize, [], []) == []
    ensures Window(db, capture, start, batchSize) == []
    decreases |db.captures| - i
  {
    var part := Part(db, i, start, batchSize, []);
    assert [] + part == part;
    if part != [] {
      ReadTablesGrows(db, i + 1, start, batchSize, part);
    } else if i < capture {
      EmptyReadMeansEmptyWindows(db, i + 1, start, batchSize, capture);
    }
  }

  lemma {:induction false} ReadTablesGrows(db: SourceDb, i: nat, start: Lsn, batchSize: nat, acc: seq<Entry>)
    requires i <= |db.captures|
    ensures acc <= ReadTables(db, i, start, batchSize, [], acc)
    decreases |db.captures| - i
  {
    if i < |db.captures| {
      var acc' := acc + Part(db, i, start, batchSize, []);
      if |acc'| < batchSize {
        ReadTablesGrows(db, i + 1, start, batchSize, acc');
      }
    }
  }

  lemma SomethingRemainsSomethingPolled(db: SourceDb, from: Lsn, batchSize: nat)
    requires WellFormed(db) && GoodCursor(db, from) && batchSize > 0
    requires After(db.log, Pos(from)) != []
    ensures Poll(db, from, batchSize, []).entries != []
  {
    var beyond := After(db.log, Pos(from));
    var e := beyond[0];
    FilterMember((x: Entry) => Value(x.lsn) > Pos(from), db.log, e);
    assert GoodEntry(db, e);
    StartIsNext(db, from);
    RowsFromIsAfter(db, from, e.capture);
    FilterMember((x: Entry) => x.capture == e.capture, beyond, e);
    var start := StartLsn(db, from);
    assert Window(db, e.capture, start, batchSize) == Take(Of(beyond, e.capture), batchSize) != [];
    if Poll(db, from, batchSize, []).entries == [] {
      EmptyReadMeansEmptyWindows(db, 0, start, batchSize, e.capture);
    }
  }

  lemma {:induction false} AfterLess(log: seq<Entry>, p: int, q: int, e: Entry)
    requires p <= q
    ensures |After(log, q)| <= |After(log, p)|
    ensures e in log && p < Value(e.lsn) <= q ==> |After(log, q)| < |After(log, p)|
  {
    if log != [] {
      AfterLess(log[1..], p, q, e);
      assert log == [log[0]] + log[1..];
    }
  }

  // ---------- one cycle ----------

  // The position a cycle ends at: the last tracked row polled, else the last row, else the maximum.
  function CycleLsn(cfg: Config, source: string, db: SourceDb, r: PollResult): Lsn {
    var valid := Tracked(cfg, source, db.captures, r.entries);
    if r.entries == [] then r.maxLsn
    else if valid == [] then r.entries[|r.entries| - 1].lsn
    else LastLsn(valid)
  }

  // A source is not in the state between its first recorded batch and its first acknowledgment.
  predicate HasAck(c: Cursors, source: string) {
    source in c ==> c[source].lastAcked.Some?
  }

  lemma CycleUnrolled(cfg: Config, s: System, source: string, faults: seq<ReadFault>, batchId: string)
    requires s.phase.Idle? && source in s.dbs
    ensures var s1 := AfterPoll(cfg, s, source, PollOf(cfg, s, source, faults), batchId, true);
            Run(cfg, s, CycleWith(source, faults, batchId)) == Step(cfg, Step(cfg, s1, Commit), AckArrives(true))
  {
    var poll := PollSource(source, faults, batchId, true);
    RunConcat(cfg, s, [poll], [Commit] + [AckArrives(true)]);
    RunConcat(cfg, Step(cfg, s, poll), [Commit], [AckArrives(true)]);
    assert CycleWith(source, faults, batchId) == [poll] + ([Commit] + [AckArrives(true)]);
    RunOne(cfg, s, poll);
    RunOne(cfg, Step(cfg, s, poll), Commit);
    RunOne(cfg, Step(cfg, Step(cfg, s, poll), Commit), AckArrives(true));
  }

  lemma RunOne(cfg: Config, s: System, ev: Event)
    ensures Run(cfg, s, [ev]) == Step(cfg, s, ev)
  {
    assert [ev][1..] == [];
  }

  lemma SafeOne(cfg: Config, s: System, reach: Reach, ev: Event)
    ensures SafeRun(cfg, s, reach, [ev]) == Safe(cfg, s, reach, ev)
  {
    assert [ev][1..] == [];
  }

  // The confirmed part of a cycle, once a batch is on its way.
  lemma BatchConfirmed(cfg: Config, s: System, source: string, batchId: string, rows: seq<Entry>)
    requires source in s.dbs && s.phase == InFlight(source, batchId, rows)
    ensures var s' := Step(cfg, Step(cfg, s, Commit), AckArrives(true));
            s'.phase.Idle? && s'.dbs == s.dbs && s'.mem == UpdateCursor(s.mem, source, batchId, LastLsn(rows))
  {
  }

  lemma NoBatchNothingHappens(cfg: Config, s: System)
    requires s.phase.Idle?
    ensures Step(cfg, Step(cfg, s, Commit), AckArrives(true)) == s
  {
  }

  lemma CycleRuns(cfg: Config, s: System, source: string, batchId: string, r: PollResult)
    requires s.phase.Idle? && source in s.dbs
    ensures var s' := Step(cfg, Step(cfg, AfterPoll(cfg, s, source, r, batchId, true), Commit), AckArrives(true));
            && s'.phase.Idle? && s'.dbs == s.dbs
            && (r.entries == [] && r.maxLsn == [] ==> s' == s)
            && (r.entries != [] || r.maxLsn != []
                ==> Acked(s'.mem, source) == CycleLsn(cfg, source, s.dbs[source], r) && HasAck(s'.mem, source))
            && OthersStay(s.mem, s'.mem, source)
  {
    var s1 := AfterPoll(cfg, s, source, r, batchId, true);
    if s1.phase.InFlight? {
      BatchConfirmed(cfg, s1, source, batchId, s1.phase.rows);
      UpdateMovesOne(s1.mem, source, batchId, LastLsn(s1.phase.rows));
    } else {
      NoBatchNothingHappens(cfg, s1);
    }
  }

  lemma PollLeaves(cfg: Config, s: System, source: string, batchId: string, r: PollResult)
    requires s.phase == Idle && source in s.dbs
    ensures var s1 := AfterPoll(cfg, s, source, r, batchId, true);
            var valid := Tracked(cfg, source, s.dbs[source].captures, r.entries);
            && s1.dbs == s.dbs && s1.target == s.target
            && s1.phase == if valid == [] then Idle else InFlight(source, batchId, valid)
  {
  }

  lemma BatchCommits(cfg: Config, s: System, source: string, batchId: string, rows: seq<Entry>)
    requires source in s.dbs && s.phase == InFlight(source, batchId, rows)
    ensures Step(cfg, Step(cfg, s, Commit), AckArrives(true)).target
            == Apply(Writes(cfg, source, s.dbs[source].captures, rows), s.target)
  {
  }

  // Where a confirmed cycle leaves client and target, whichever of the three ways its poll goes.
  lemma CycleLeaves(cfg: Config, s: System, source: string, batchId: string, r: PollResult)
    requires s.phase == Idle && source in s.dbs && (r.entries != [] || r.maxLsn != [])
    ensures var s' := Step(cfg, Step(cfg, AfterPoll(cfg, s, source, r, batchId, true), Commit), AckArrives(true));
            && s'.dbs == s.dbs && Acked(s'.mem, source) == CycleLsn(cfg, source, s.dbs[source], r)
            && s'.target == Apply(Writes(cfg, source, s.dbs[source].captures,
                                         Tracked(cfg, source, s.dbs[source].captures, r.entries)), s.target)
  {
    var s1 := AfterPoll(cfg, s, source, r, batchId, true);
    CycleRuns(cfg, s, source, batchId, r);
    PollLeaves(cfg, s, source, batchId, r);
    if s1.phase.InFlight? {
      BatchCommits(cfg, s1, source, batchId, s1.phase.rows);
    } else {
      NoBatchNothingHappens(cfg, s1);
    }
  }

  // What a cycle achieves for its source.
  ghost predicate CycleDone(s: System, s': System, source: string)
    requires source in s.dbs
  {
    && s'.phase.Idle? && s'.dbs == s.dbs
    && GoodCursor(s.dbs[source], Acked(s'.mem, source)) && HasAck(s'.mem, source)
    && AckedPos(s.mem, source) <= AckedPos(s'.mem, source)
    && (if Remaining(s, source) > 0 then Remaining(s', source) < Remaining(s, source)
        else Remaining(s', source) == 0 && AtMaximum(s.dbs[source], Acked(s.mem, source), Acked(s'.mem, source)))
    && OthersStay(s.mem, s'.mem, source)
  }

  lemma CycleOutcome(cfg: Config, s: System, s': System, source: string, r: PollResult)
    requires source in s.dbs && WellFormed(s.dbs[source]) && HasAck(s.mem, source)
    requires GoodCursor(s.dbs[source], Acked(s.mem, source)) && Undisturbed(s.dbs[source], Acked(s.mem, source), r)
    requires s'.phase.Idle? && s'.dbs == s.dbs
    requires r.entries == [] && r.maxLsn == [] ==> s' == s
    requires r.entries != [] || r.maxLsn != []
             ==> Acked(s'.mem, source) == CycleLsn(cfg, source, s.dbs[source], r) && HasAck(s'.mem, source)
    requires OthersStay(s.mem, s'.mem, source)
    ensures CycleDone(s, s', source)
  {
    CycleEnd(cfg, source, s.dbs[source], Acked(s.mem, source), r);
  }

  // A cycle over a non-empty remainder makes it strictly smaller, however many of the polled rows were
  // filtered out; a cycle over an empty one moves the cursor to the maximum LSN.
  lemma {:induction false} CycleShrinks(cfg: Config, s: System, source: string, batchId: string)
    requires s.phase.Idle? && source in s.dbs && WellFormed(s.dbs[source]) && cfg.batchSize > 0
    requires GoodCursor(s.dbs[source], Acked(s.mem, source)) && HasAck(s.mem, source)
    ensures CycleDone(s, Run(cfg, s, Cycle(source, batchId)), source)
  {
    var r := PollOf(cfg, s, source, []);
    CycleUnrolled(cfg, s, source, [], batchId);
    CycleRuns(cfg, s, source, batchId, r);
    UndisturbedPoll(s.dbs[source], Acked(s.mem, source), cfg.batchSize);
    CycleOutcome(cfg, s, Run(cfg, s, Cycle(source, batchId)), source, r);
  }

  // What an undisturbed poll finds.
  predicate Undisturbed(db: SourceDb, from: Lsn, r: PollResult) {
    && PollFrom(db, Pos(from), r)
    && (After(db.log, Pos(from)) != [] <==> r.entries != [])
    && (r.maxLsn == [] <==> db.maxLsn == [] || StartLsn(db, from) == [])
  }

  lemma UndisturbedPoll(db: SourceDb, from: Lsn, batchSize: nat)
    requires WellFormed(db) && GoodCursor(db, from) && batchSize > 0
    ensures Undisturbed(db, from, Poll(db, from, batchSize, []))
  {
    PollIsFrom(db, from, batchSize, []);
    PolledFromSomething(db, Pos(from), Poll(db, from, batchSize, []));
    if After(db.log, Pos(from)) != [] {
      SomethingRemainsSomethingPolled(db, from, batchSize);
    }
  }

  lemma PolledFromSomething(db: SourceDb, pos: int, r: PollResult)
    requires PollFrom(db, pos, r)
    ensures r.entries != [] ==> After(db.log, pos) != []
  {
    if r.entries != [] { assert r.entries[0] in After(db.log, pos); }
  }

  lemma CycleEnd(cfg: Config, source: string, db: SourceDb, from: Lsn, r: PollResult)
    requires WellFormed(db) && GoodCursor(db, from) && Undisturbed(db, from, r)
    ensures var lsn := CycleLsn(cfg, source, db, r);
            if r.entries != [] then
              && lsn != [] && GoodCursor(db, lsn) && Pos(from) < Pos(lsn)
              && |After(db.log, Pos(lsn))| < |After(db.log, Pos(from))|
            else
              && GoodCursor(db, r.maxLsn) && (r.maxLsn != [] ==> Pos(from) <= Pos(r.maxLsn))
              && (r.maxLsn != [] ==> After(db.log, Pos(r.maxLsn)) == [])
  {
    if r.entries != [] {
      var valid := Tracked(cfg, source, db.captures, r.entries);
      var e := if valid == [] then r.entries[|r.entries| - 1] else valid[|valid| - 1];
      FilterMember((x: Entry) => IsTracked(cfg, source, db.captures, x), r.entries, e);
      assert e in r.entries;
      AfterLess(db.log, Pos(from), Value(e.lsn), e);
    } else if r.maxLsn != [] {
      AfterLess(db.log, Pos(from), Pos(db.maxLsn), Entry([], 0, 0, []));
    }
  }

  // Where an empty poll leaves the cursor: at the maximum LSN, unless the source has none yet or the
  // client has nowhere to start.
  predicate AtMaximum(db: SourceDb, from: Lsn, now: Lsn) {
    now == if db.maxLsn == [] || StartLsn(db, from) == [] then from else db.maxLsn
  }

  // Only one source's cursor changed.
  ghost predicate OthersStay(c: Cursors, c': Cursors, source: string) {
    forall other :: other != source ==> Acked(c', other) == Acked(c, other) && HasAck(c', other) == HasAck(c, other)
  }

  // ---------- rounds ----------

  // A source's undisturbed cycle, with the identifier drawn for its batch.
  datatype Visit = Visit(source: string, batchId: string)

  // Undisturbed cycles of some sources, one after the other, as one sync cycle goes through them.
  function Round(visits: seq<Visit>): seq<Event> {
    if visits == [] then []
    else
      var last := visits[|visits| - 1];
      Round(visits[..|visits| - 1]) + Cycle(last.source, last.batchId)
  }

  function Rounds(rounds: seq<seq<Visit>>): seq<Event> {
    if rounds == [] then [] else Rounds(rounds[..|rounds| - 1]) + Round(rounds[|rounds| - 1])
  }

  predicate Visits(visits: seq<Visit>, source: string) {
    exists v :: v in visits && v.source == source
  }

  // A round that leaves out no source with a database.
  predicate FullRound(dbs: Databases, visits: seq<Visit>) {
    (forall v :: v in visits ==> v.source in dbs) && forall source :: source in dbs ==> Visits(visits, source)
  }

  // Between cycles, with every source's first batch acknowledged.
  predicate ReadyToDrain(s: System) {
    && s.phase.Idle?
    && forall source :: source in s.dbs ==>
                          && WellFormed(s.dbs[source])
                          && GoodCursor(s.dbs[source], Acked(s.mem, source)) && HasAck(s.mem, source)
  }

  predicate Shrunk(before: nat, after: nat) {
    after == 0 || after < before
  }

  // What some cycles achieve: every source visited has less left than before, or nothing.
  ghost predicate RoundDone(s: System, s': System, visits: seq<Visit>) {
    && s'.dbs == s.dbs && ReadyToDrain(s')
    && forall source :: source in s.dbs ==>
                          && AckedPos(s.mem, source) <= AckedPos(s'.mem, source)
                          && Remaining(s', source) <= Remaining(s, source)
                          && (Visits(visits, source) ==> Shrunk(Remaining(s, source), Remaining(s', source)))
  }

  lemma CycleKeepsReady(s: System, s': System, source: string)
    requires ReadyToDrain(s) && source in s.dbs && CycleDone(s, s', source)
    ensures ReadyToDrain(s')
    ensures forall other :: other in s.dbs && other != source ==> Acked(s'.mem, other) == Acked(s.mem, other)
  {
  }

  lemma RoundNext(s: System, s1: System, s2: System, init: seq<Visit>, v: Visit)
    requires s1.dbs == s.dbs && RoundDone(s, s1, init) && v.source in s.dbs && CycleDone(s1, s2, v.source)
    ensures RoundDone(s, s2, init + [v])
  {
    CycleKeepsReady(s1, s2, v.source);
    forall source | source in s.dbs
      ensures AckedPos(s.mem, source) <= AckedPos(s2.mem, source)
      ensures Remaining(s2, source) <= Remaining(s, source)
      ensures Visits(init + [v], source) ==> Shrunk(Remaining(s, source), Remaining(s2, source))
    {
      if source != v.source && Visits(init + [v], source) {
        var w :| w in init + [v] && w.source == source;
        assert w in init;
      }
    }
  }

  // A round shrinks what remains of every source it visits, whatever is polled on the way.
  lemma {:induction false} RoundShrinks(cfg: Config, s: System, visits: seq<Visit>)
    requires cfg.batchSize > 0 && ReadyToDrain(s) && forall v :: v in visits ==> v.source in s.dbs
    ensures RoundDone(s, Run(cfg, s, Round(visits)), visits)
  {
    if visits != [] {
      var n := |visits| - 1;
      var init, v := visits[..n], visits[n];
      assert visits == init + [v];
      RoundShrinks(cfg, s, init);
      var s1 := Run(cfg, s, Round(init));
      RunConcat(cfg, s, Round(init), Cycle(v.source, v.batchId));
      CycleShrinks(cfg, s1, v.source, v.batchId);
      RoundNext(s, s1, Run(cfg, s1, Cycle(v.source, v.batchId)), init, v);
    }
  }

  // Each round takes at least one row from every source that has any left: no source needs more rounds than
  // it has rows. Nothing is asked of the polls.
  lemma {:induction false} RoundsDrain(cfg: Config, s: System, rounds: seq<seq<Visit>>)
    requires cfg.batchSize > 0 && ReadyToDrain(s) && forall visits :: visits in rounds ==> FullRound(s.dbs, visits)
    ensures var s' := Run(cfg, s, Rounds(rounds));
            && s'.dbs == s.dbs && ReadyToDrain(s')
            && forall source :: source in s.dbs ==>
                                  && AckedPos(s.mem, source) <= AckedPos(s'.mem, source)
                                  && (|| Remaining(s', source) == 0
                                      || Remaining(s', source) + |rounds| <= Remaining(s, source))
  {
    if rounds != [] {
      var n := |rounds| - 1;
      var init, visits := rounds[..n], rounds[n];
      assert visits in rounds;
      RoundsDrain(cfg, s, init);
      RunConcat(cfg, s, Rounds(init), Round(visits));
      RoundShrinks(cfg, Run(cfg, s, Rounds(init)), visits);
    }
  }

  lemma {:induction false} NothingRemainsNoBacklog(cfg: Config, s: System, k: nat)
    requires k <= |cfg.sources| && forall source :: source in s.dbs ==> Remaining(s, source) == 0
    ensures BacklogFrom(cfg, s.dbs, s.mem, k) == []
    decreases |cfg.sources| - k
  {
    if k < |cfg.sources| {
      NothingRemainsNoBacklog(cfg, s, k + 1);
    }
  }

  // Convergence. From any state that satisfies the invariant, between cycles and with every source's first
  // batch acknowledged: once the logs stop growing and nothing fails, as many rounds as the longest remainder
  // has rows leave the target holding exactly the replicated tables, if the polls they make are closed.
  lemma {:induction false} Converges(cfg: Config, s: System, reach: Reach, initial: DB, rounds: seq<seq<Visit>>)
    requires Inv(cfg, s, reach, initial) && ReadyToDrain(s) && cfg.batchSize > 0
    requires forall visits :: visits in rounds ==> FullRound(s.dbs, visits)
    requires forall source :: source in s.dbs ==> Remaining(s, source) <= |rounds|
    requires SafeRun(cfg, s, reach, Rounds(rounds))
    ensures var s' := Run(cfg, s, Rounds(rounds)); s'.dbs == s.dbs && s'.target == Replicated(cfg, s.dbs, initial)
  {
    var s' := Run(cfg, s, Rounds(rounds));
    RoundsDrain(cfg, s, rounds);
    RunKeepsInv(cfg, s, reach, initial, Rounds(rounds));
    BothReplay(cfg, s', ReachAfter(cfg, s, reach, Rounds(rounds)), initial);
    NothingRemainsNoBacklog(cfg, s', 0);
  }

  // ---------- the polls of a round are closed if those from the cursor on are ----------

  // From a position on, wherever the client polls undisturbed, it skips nothing.
  ghost predicate ClosedFrom(cfg: Config, source: string, db: SourceDb, pos: int) {
    forall from: Lsn {:trigger Poll(db, from, cfg.batchSize, [])} ::
      GoodCursor(db, from) && pos <= Pos(from)
      ==> ClosedPoll(cfg, source, db, Pos(from), Poll(db, from, cfg.batchSize, []))
  }

  ghost predicate AllClosed(cfg: Config, s: System) {
    forall source :: source in s.dbs ==> ClosedFrom(cfg, source, s.dbs[source], AckedPos(s.mem, source))
  }

  lemma CycleIsSafe(cfg: Config, s: System, reach: Reach, source: string, batchId: string)
    requires s.phase.Idle? && source in s.dbs && HasAck(s.mem, source)
    requires GoodCursor(s.dbs[source], Acked(s.mem, source))
    requires ClosedFrom(cfg, source, s.dbs[source], AckedPos(s.mem, source))
    ensures SafeRun(cfg, s, reach, Cycle(source, batchId))
  {
    var poll := PollSource(source, [], batchId, true);
    assert Base(s.mem, reach, source) == PollCursor(s.mem, source) == Acked(s.mem, source);
    assert Cycle(source, batchId) == [poll] + ([Commit] + [AckArrives(true)]);
    SafeRunConcat(cfg, s, reach, [poll], [Commit] + [AckArrives(true)]);
    SafeOne(cfg, s, reach, poll);
    ConfirmationIsSafe(cfg, Run(cfg, s, [poll]), ReachAfter(cfg, s, reach, [poll]));
  }

  lemma ConfirmationIsSafe(cfg: Config, s: System, reach: Reach)
    ensures SafeRun(cfg, s, reach, [Commit] + [AckArrives(true)])
  {
    SafeRunConcat(cfg, s, reach, [Commit], [AckArrives(true)]);
    SafeOne(cfg, s, reach, Commit);
    SafeOne(cfg, Run(cfg, s, [Commit]), ReachAfter(cfg, s, reach, [Commit]), AckArrives(true));
  }

  lemma {:induction false} RoundIsSafe(cfg: Config, s: System, reach: Reach, visits: seq<Visit>)
    requires cfg.batchSize > 0 && ReadyToDrain(s) && AllClosed(cfg, s) && forall v :: v in visits ==> v.source in s.dbs
    ensures SafeRun(cfg, s, reach, Round(visits))
  {
    if visits != [] {
      var n := |visits| - 1;
      var init, v := visits[..n], visits[n];
      var s1 := Run(cfg, s, Round(init));
      RoundIsSafe(cfg, s, reach, init);
      RoundShrinks(cfg, s, init);
      assert v in visits;
      CycleIsSafe(cfg, s1, ReachAfter(cfg, s, reach, Round(init)), v.source, v.batchId);
      SafeRunConcat(cfg, s, reach, Round(init), Cycle(v.source, v.batchId));
    }
  }

  // So the rounds are safe if every source is closed from its cursor on: a condition on the rows that remain.
  lemma {:induction false} RoundsAreSafe(cfg: Config, s: System, reach: Reach, rounds: seq<seq<Visit>>)
    requires cfg.batchSize > 0 && ReadyToDrain(s) && AllClosed(cfg, s)
    requires forall visits :: visits in rounds ==> FullRound(s.dbs, visits)
    ensures SafeRun(cfg, s, reach, Rounds(rounds))
  {
    if rounds != [] {
      var n := |rounds| - 1;
      var init, visits := rounds[..n], rounds[n];
      assert visits in rounds;
      RoundsAreSafe(cfg, s, reach, init);
      RoundsDrain(cfg, s, init);
      RoundIsSafe(cfg, Run(cfg, s, Rounds(init)), ReachAfter(cfg, s, reach, Rounds(init)), visits);
      SafeRunConcat(cfg, s, reach, Rounds(init), Round(visits));
    }
  }

  // Fewer rows beyond the cursor than fit in a batch are such a remainder, however many tables they are of.
  lemma SmallRemainderClosed(cfg: Config, source: string, db: SourceDb, pos: int)
    requires WellFormed(db) && |After(db.log, pos)| < cfg.batchSize
    ensures ClosedFrom(cfg, source, db, pos)
  {
    forall from: Lsn | GoodCursor(db, from) && pos <= Pos(from)
      ensures ClosedPoll(cfg, source, db, Pos(from), Poll(db, from, cfg.batchSize, []))
    {
      var r := Poll(db, from, cfg.batchSize, []);
      var valid := Tracked(cfg, source, db.captures, r.entries);
      AfterLess(db.log, pos, Pos(from), Entry([], 0, 0, []));
      forall i, p: int | 0 <= i < |db.captures| && TargetOf(cfg, source, db.captures[i]).Some?
        ensures CoversTable(db.log, Pos(from), valid, p, i)
      {
        SmallPollCovers(db, from, cfg.batchSize, [], i, p);
        TrackedOf(cfg, source, db.captures, r.entries, i);
      }
      if r.entries == [] { assert valid == r.entries; }
    }
  }

  lemma {:induction false} StrictFilter(f: Entry -> bool, log: seq<Entry>)
    requires StrictlySorted(log)
    ensures StrictlySorted(Filter(f, log))
  {
    if log != [] {
      StrictFilter(f, log[1..]);
      forall e | e in Filter(f, log[1..])
        ensures Value(log[0].lsn) < Value(e.lsn)
      {
        FilterMember(f, log[1..], e);
      }
    }
  }

  // Every row of its own transaction.
  predicate StrictlySorted(log: seq<Entry>) {
    forall i, j :: 0 <= i < j < |log| ==> Value(log[i].lsn) < Value(log[j].lsn)
  }

  // So is what remains of a single table, however long, if no two of its rows share an LSN.
  lemma SingleTableClosedFrom(cfg: Config, source: string, db: SourceDb, pos: int)
    requires WellFormed(db) && |db.captures| == 1 && StrictlySorted(After(db.log, pos)) && cfg.batchSize > 0
    ensures ClosedFrom(cfg, source, db, pos)
  {
    forall from: Lsn | GoodCursor(db, from) && pos <= Pos(from)
      ensures ClosedPoll(cfg, source, db, Pos(from), Poll(db, from, cfg.batchSize, []))
    {
      AfterAfter(db.log, pos, Pos(from));
      StrictFilter((e: Entry) => Value(e.lsn) > Pos(from), After(db.log, pos));
      SingleTablePoll(db, from, cfg.batchSize);
      SingleTableClosed(cfg, source, db, Pos(from), Poll(db, from, cfg.batchSize, []));
    }
  }

  lemma SingleTablePoll(db: SourceDb, from: Lsn, batchSize: nat)
    requires WellFormed(db) && |db.captures| == 1 && batchSize > 0 && GoodCursor(db, from)
    requires StrictlySorted(After(db.log, Pos(from)))
    ensures SingleTableShape(db, Pos(from), Poll(db, from, batchSize, []))
  {
    var all := Of(After(db.log, Pos(from)), 0);
    StrictFilter((e: Entry) => e.capture == 0, After(db.log, Pos(from)));
    if db.maxLsn != [] && StartLsn(db, from) != [] {
      SingleTableWindow(db, from, batchSize);
      if all != [] {
        SingleTableCovers(db, from, batchSize);
      }
    }
  }

  // Nothing returned means nothing there; what is returned reaches up to its own last row.
  predicate SingleTableShape(db: SourceDb, pos: int, r: PollResult) {
    && Of(r.entries, 0) == r.entries
    && (r.entries == [] && r.maxLsn != [] ==> Of(After(db.log, pos), 0) == [])
    && (r.entries != [] ==> CoversTable(db.log, pos, r.entries, Value(r.entries[|r.entries| - 1].lsn), 0))
  }

  lemma SingleTableClosed(cfg: Config, source: string, db: SourceDb, pos: int, r: PollResult)
    requires |db.captures| == 1 && SingleTableShape(db, pos, r)
    ensures ClosedPoll(cfg, source, db, pos, r)
  {
    TrackedIsAllOrNothing(cfg, source, db.captures, r.entries);
  }

  lemma TrackedIsAllOrNothing(cfg: Config, source: string, caps: seq<Capture>, rows: seq<Entry>)
    requires |caps| == 1 && Of(rows, 0) == rows
    ensures Tracked(cfg, source, caps, rows) == if TargetOf(cfg, source, caps[0]).Some? then rows else []
  {
    forall e | e in rows
      ensures e.capture == 0
    {
      FilterMember((x: Entry) => x.capture == 0, rows, e);
    }
    FilterAll((e: Entry) => IsTracked(cfg, source, caps, e), rows);
  }
}
