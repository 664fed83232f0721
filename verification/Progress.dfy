// How cursors move: never backwards while the client lives, strictly forwards with every confirmed
// batch, and far enough to drain a log that has stopped growing.
module Progress {
  import opened Lsn
  import opened Sequences
  import opened Source
  import opened Coverage
  import opened Cursors
  import opened Protocol
  import opened Invariant
  import opened Safety

  // ---------- runs ----------

  lemma {:induction false} RunConcat(cfg: Config, s: System, a: seq<Event>, b: seq<Event>)
    ensures Run(cfg, s, a + b) == Run(cfg, Run(cfg, s, a), b)
    decreases a
  {
    if a == [] {
      assert a + b == b;
    } else {
      assert (a + b)[0] == a[0] && (a + b)[1..] == a[1..] + b;
      RunConcat(cfg, Step(cfg, s, a[0]), a[1..], b);
    }
  }

  lemma {:induction false} SafeRunConcat(cfg: Config, s: System, reach: Reach, a: seq<Event>, b: seq<Event>)
    ensures SafeRun(cfg, s, reach, a + b)
            <==> SafeRun(cfg, s, reach, a) && SafeRun(cfg, Run(cfg, s, a), ReachAfter(cfg, s, reach, a), b)
    ensures ReachAfter(cfg, s, reach, a + b) == ReachAfter(cfg, Run(cfg, s, a), ReachAfter(cfg, s, reach, a), b)
    decreases a
  {
    if a == [] {
      assert a + b == b;
    } else {
      assert (a + b)[0] == a[0] && (a + b)[1..] == a[1..] + b;
      SafeRunConcat(cfg, Step(cfg, s, a[0]), NextReach(cfg, s, reach, a[0]), a[1..], b);
    }
  }

  // ---------- the state file ----------

  // Whatever happens, the state file holds the cursors exactly as they stood in memory at some moment
  // of the run so far: never a mixture, never something memory did not hold.
  lemma {:induction false} DiskIsEarlierMemory(cfg: Config, s: System, evs: seq<Event>)
    requires s.disk == s.mem
    ensures exists k :: 0 <= k <= |evs| && Run(cfg, s, evs).disk == Run(cfg, s, evs[..k]).mem
  {
    if evs == [] {
      assert evs[..0] == [];
    } else {
      var n := |evs| - 1;
      DiskIsEarlierMemory(cfg, s, evs[..n]);
      var k :| 0 <= k <= n && Run(cfg, s, evs[..n]).disk == Run(cfg, s, evs[..n][..k]).mem;
      assert evs[..n][..k] == evs[..k] && evs == evs[..n] + [evs[n]] && evs[..|evs|] == evs;
      RunConcat(cfg, s, evs[..n], [evs[n]]);
      var before := Run(cfg, s, evs[..n]);
      assert Run(cfg, before, [evs[n]]) == Step(cfg, before, evs[n]);
      DiskAfterStep(cfg, before, evs[n]);
    }
  }

  // An event leaves the state file alone or makes it equal to memory; a restart takes memory from it.
  lemma DiskAfterStep(cfg: Config, s: System, ev: Event)
    ensures Step(cfg, s, ev).disk == s.disk || Step(cfg, s, ev).disk == Step(cfg, s, ev).mem
    ensures ev.Crash? ==> Step(cfg, s, ev).mem == s.disk == Step(cfg, s, ev).disk
    ensures (ev.PollSource? || ev.AckArrives?) && ev.saved && Step(cfg, s, ev).mem != s.mem
            ==> Step(cfg, s, ev).disk == Step(cfg, s, ev).mem
  {
  }

  // ---------- cursor order, without any assumption on coverage ----------

  predicate OrderedPhase(s: System) {
    match s.phase
    case Idle => true
    case InFlight(source, _, rows) =>
      && source in s.dbs && rows != []
      && forall e :: e in rows ==> e in s.dbs[source].log && AckedPos(s.mem, source) < Value(e.lsn)
    case Confirmed(source, _, lsn) =>
      source in s.dbs && |lsn| == LSN_BYTES && AckedPos(s.mem, source) < Value(lsn) <= Pos(s.dbs[source].maxLsn)
  }

  predicate GoodLogs(dbs: Databases) {
    forall source :: source in dbs ==> WellFormed(dbs[source])
  }

  predicate Ordered(s: System) {
    && Standing(s.dbs, s.mem) && Standing(s.dbs, s.disk) && Behind(s.dbs, s.disk, s.mem)
    && OrderedPhase(s)
  }

  // The only demand on the environment: the capture job appends later transactions.
  predicate InOrder(s: System, ev: Event) {
    ev.Append? && ev.source in s.dbs ==> GoodAppend(s.dbs[ev.source], ev.rows, ev.maxLsn)
  }

  lemma SaveOrdered(s: System, c: Cursors, saved: bool)
    requires Ordered(s) && Standing(s.dbs, c) && Behind(s.dbs, s.mem, c)
    ensures Ordered(Save(s, c, saved).(phase := Idle))
  {
  }

  // c' is c with one source moved to an LSN.
  ghost predicate Moved(c: Cursors, c': Cursors, source: string, lsn: Lsn) {
    && Acked(c', source) == lsn == PollCursor(c', source)
    && forall s :: s != source ==> Acked(c', s) == Acked(c, s) && PollCursor(c', s) == PollCursor(c, s)
  }

  lemma MoveStands(dbs: Databases, c: Cursors, c': Cursors, source: string, lsn: Lsn)
    requires Standing(dbs, c) && source in dbs && Moved(c, c', source, lsn)
    requires |lsn| == LSN_BYTES && AckedPos(c, source) <= Value(lsn) <= Pos(dbs[source].maxLsn)
    ensures Standing(dbs, c') && Behind(dbs, c, c')
  {
  }

  lemma MoveOrdered(s: System, c: Cursors, source: string, lsn: Lsn, saved: bool)
    requires Ordered(s) && source in s.dbs && Moved(s.mem, c, source, lsn)
    requires |lsn| == LSN_BYTES && AckedPos(s.mem, source) <= Value(lsn) <= Pos(s.dbs[source].maxLsn)
    ensures Ordered(Save(s, c, saved).(phase := Idle))
  {
    MoveStands(s.dbs, s.mem, c, source, lsn);
    SaveOrdered(s, c, saved);
  }

  lemma SaveIdle(s: System, c: Cursors, saved: bool)
    requires s.phase == Idle
    ensures Save(s, c, saved).(phase := Idle) == Save(s, c, saved)
  {
  }

  lemma AdvanceMoves(s: System, source: string, batchId: string, lsn: Lsn, saved: bool)
    requires Ordered(s) && s.phase.Idle? && source in s.dbs
    requires |lsn| == LSN_BYTES && AckedPos(s.mem, source) <= Value(lsn) <= Pos(s.dbs[source].maxLsn)
    ensures Ordered(Save(s, UpdateCursor(s.mem, source, batchId, lsn), saved))
    ensures Moved(s.mem, UpdateCursor(s.mem, source, batchId, lsn), source, lsn)
  {
    var c := UpdateCursor(s.mem, source, batchId, lsn);
    UpdateMovesOne(s.mem, source, batchId, lsn);
    MoveOrdered(s, c, source, lsn, saved);
    SaveIdle(s, c, saved);
  }

  lemma RecordMoves(s: System, source: string, batchId: string, lsn: Lsn, rows: seq<Entry>, saved: bool)
    requires Ordered(s) && s.phase.Idle? && source in s.dbs && GoodCursor(s.dbs[source], lsn) && rows != []
    requires forall e :: e in rows ==> e in s.dbs[source].log && AckedPos(s.mem, source) < Value(e.lsn)
    ensures var s' := Save(s, RecordPendingBatch(s.mem, source, batchId, lsn, |rows|), saved)
                      .(phase := if saved then InFlight(source, batchId, rows) else Idle);
            Ordered(s') && forall other :: Acked(s'.mem, other) == Acked(s.mem, other)
  {
    var c := RecordPendingBatch(s.mem, source, batchId, lsn, |rows|);
    RecordStands(s.dbs, s.mem, source, batchId, lsn, |rows|);
    SaveOrdered(s, c, saved);
  }

  // What a poll does to the cursors: nothing, or one source strictly past where it polled from (at
  // least as far when it found nothing), or a record of a batch of tracked rows beyond that point.
  lemma PollMoves(cfg: Config, s: System, source: string, r: PollResult, batchId: string, saved: bool)
    requires Ordered(s) && s.phase.Idle? && source in s.dbs && |s.dbs[source].maxLsn| in {0, LSN_BYTES}
    requires PollFrom(s.dbs[source], Pos(PollCursor(s.mem, source)), r)
    ensures Ordered(AfterPoll(cfg, s, source, r, batchId, saved))
    ensures var s' := AfterPoll(cfg, s, source, r, batchId, saved);
            && AckedPos(s.mem, source) <= AckedPos(s'.mem, source)
            && (r.entries != [] && Tracked(cfg, source, s.dbs[source].captures, r.entries) == []
                ==> AckedPos(s.mem, source) < AckedPos(s'.mem, source))
            && forall other :: other != source ==> Acked(s'.mem, other) == Acked(s.mem, other)
  {
    var db, from := s.dbs[source], PollCursor(s.mem, source);
    var valid := Tracked(cfg, source, db.captures, r.entries);
    assert GoodCursor(db, from) && AckedPos(s.mem, source) <= Pos(from);
    if r.entries == [] {
      if r.maxLsn != [] {
        AdvanceMoves(s, source, "no-changes-" + batchId, r.maxLsn, saved);
      }
    } else {
      var last := r.entries[|r.entries| - 1];
      assert last in r.entries;
      if valid == [] {
        AdvanceMoves(s, source, "local-skip-" + batchId, last.lsn, saved);
      } else {
        forall e | e in valid
          ensures e in r.entries
        {
          FilterMember((x: Entry) => IsTracked(cfg, source, db.captures, x), r.entries, e);
        }
        RecordMoves(s, source, batchId, last.lsn, valid, saved);
      }
    }
  }

  lemma PollEventMoves(cfg: Config, s: System, source: string, faults: seq<ReadFault>, batchId: string, saved: bool)
    requires Ordered(s) && s.phase.Idle? && source in s.dbs && WellFormed(s.dbs[source])
    ensures Ordered(Step(cfg, s, PollSource(source, faults, batchId, saved)))
    ensures var s' := Step(cfg, s, PollSource(source, faults, batchId, saved));
            && AckedPos(s.mem, source) <= AckedPos(s'.mem, source)
            && (PollOf(cfg, s, source, faults).entries != []
                && Tracked(cfg, source, s.dbs[source].captures, PollOf(cfg, s, source, faults).entries) == []
                ==> AckedPos(s.mem, source) < AckedPos(s'.mem, source))
            && forall other :: other != source ==> Acked(s'.mem, other) == Acked(s.mem, other)
  {
    var r := PollOf(cfg, s, source, faults);
    assert GoodCursor(s.dbs[source], PollCursor(s.mem, source));
    PollIsFrom(s.dbs[source], PollCursor(s.mem, source), cfg.batchSize, faults);
    PollMoves(cfg, s, source, r, batchId, saved);
  }

  // A poll with tracked rows is recorded with the last LSN polled and the number of changes to be sent, on disk too if
  // the save works, and only then is the batch on its way.
  lemma PollRecords(cfg: Config, s: System, source: string, faults: seq<ReadFault>, batchId: string, saved: bool)
    requires s.phase.Idle? && source in s.dbs
    requires Tracked(cfg, source, s.dbs[source].captures, PollOf(cfg, s, source, faults).entries) != []
    ensures var rows := PollOf(cfg, s, source, faults).entries;
            var valid := Tracked(cfg, source, s.dbs[source].captures, rows);
            var s' := Step(cfg, s, PollSource(source, faults, batchId, saved));
            && rows != []
            && PendingOf(s'.mem, source)
               == PendingOf(s.mem, source) + [PendingBatch(batchId, rows[|rows| - 1].lsn, |valid|)]
            && s'.disk == (if saved then s'.mem else s.disk)
            && s'.phase == if saved then InFlight(source, batchId, valid) else Idle
  {
  }

  // The acknowledged position waits for the server only while tracked rows are polled. A poll leaves it alone
  // if and only if it returned tracked rows, or nothing with no new maximum LSN to report.
  lemma PollLeavesCursorIff(cfg: Config, s: System, source: string, faults: seq<ReadFault>, batchId: string,
                            saved: bool)
    requires Ordered(s) && s.phase.Idle? && source in s.dbs && WellFormed(s.dbs[source])
    ensures var r := PollOf(cfg, s, source, faults);
            Acked(Step(cfg, s, PollSource(source, faults, batchId, saved)).mem, source) == Acked(s.mem, source)
            <==>
            || Tracked(cfg, source, s.dbs[source].captures, r.entries) != []
            || (r.entries == [] && (r.maxLsn == [] || r.maxLsn == Acked(s.mem, source)))
  {
    var r := PollOf(cfg, s, source, faults);
    var valid := Tracked(cfg, source, s.dbs[source].captures, r.entries);
    PollEventMoves(cfg, s, source, faults, batchId, saved);
    if r.entries == [] {
      UpdateMovesOne(s.mem, source, "no-changes-" + batchId, r.maxLsn);
    } else if valid != [] {
      var last := r.entries[|r.entries| - 1];
      PollIsFrom(s.dbs[source], PollCursor(s.mem, source), cfg.batchSize, faults);
      assert last in r.entries;
      RecordStands(s.dbs, s.mem, source, batchId, last.lsn, |valid|);
    }
  }

  lemma CommitOrdered(cfg: Config, s: System)
    requires Ordered(s) && s.phase.InFlight? && WellFormed(s.dbs[s.phase.source])
    ensures Ordered(Step(cfg, s, Commit))
  {
    var source, rows := s.phase.source, s.phase.rows;
    var last := rows[|rows| - 1];
    assert last in rows && GoodEntry(s.dbs[source], last);
    LastLsnIsLast(rows);
  }

  lemma AppendOrdered(s: System, source: string, rows: seq<Entry>, maxLsn: Lsn)
    requires Ordered(s) && source in s.dbs && GoodAppend(s.dbs[source], rows, maxLsn)
    ensures Ordered(s.(dbs := s.dbs[source := Appended(s.dbs[source], rows, maxLsn)]))
  {
  }

  lemma AckOrdered(cfg: Config, s: System, saved: bool)
    requires Ordered(s) && s.phase.Confirmed?
    ensures Ordered(Step(cfg, s, AckArrives(saved)))
    ensures AckedPos(s.mem, s.phase.source) < AckedPos(Step(cfg, s, AckArrives(saved)).mem, s.phase.source)
  {
    var c := UpdateCursor(s.mem, s.phase.source, s.phase.batchId, s.phase.lsn);
    UpdateMovesOne(s.mem, s.phase.source, s.phase.batchId, s.phase.lsn);
    MoveOrdered(s, c, s.phase.source, s.phase.lsn, saved);
  }

  lemma StepOrdered(cfg: Config, s: System, ev: Event)
    requires GoodLogs(s.dbs) && Ordered(s) && InOrder(s, ev)
    ensures Ordered(Step(cfg, s, ev))
  {
    match ev {
      case Append(source, rows, maxLsn) => if source in s.dbs { AppendOrdered(s, source, rows, maxLsn); }
      case PollSource(source, faults, batchId, saved) =>
        if s.phase.Idle? && source in s.dbs { PollEventMoves(cfg, s, source, faults, batchId, saved); }
      case Commit => if s.phase.InFlight? { CommitOrdered(cfg, s); }
      case Reject =>
      case Lose =>
      case AckArrives(saved) => if s.phase.Confirmed? { AckOrdered(cfg, s, saved); }
      case AckLost =>
      case LateCommit(i) =>
      case Crash =>
    }
  }

  // Rejections, lost streams, lost acknowledgments, appends and late commits leave the cursors alone.
  lemma OthersLeaveCursors(cfg: Config, s: System, ev: Event)
    requires !ev.PollSource? && !ev.AckArrives? && !ev.Crash?
    ensures Step(cfg, s, ev).mem == s.mem && Step(cfg, s, ev).disk == s.disk
  {
  }

  lemma AckMovesOne(cfg: Config, s: System, saved: bool, source: string)
    requires Ordered(s) && source in s.dbs
    ensures var s' := Step(cfg, s, AckArrives(saved));
            if s.phase.Confirmed? && s.phase.source == source then AckedPos(s.mem, source) < AckedPos(s'.mem, source)
            else Acked(s'.mem, source) == Acked(s.mem, source)
  {
    if s.phase.Confirmed? {
      UpdateMovesOne(s.mem, s.phase.source, s.phase.batchId, s.phase.lsn);
    }
  }

  // One event: no acknowledged position falls, except that a restart falls back to the state file.
  // Only a poll and an arriving acknowledgment move a position at all, and only their own source's.
  lemma CursorsMoveForward(cfg: Config, s: System, ev: Event, source: string)
    requires GoodLogs(s.dbs) && Ordered(s) && InOrder(s, ev) && source in s.dbs
    ensures !ev.Crash? ==> AckedPos(s.mem, source) <= AckedPos(Step(cfg, s, ev).mem, source)
    ensures ev.Crash? ==> AckedPos(Step(cfg, s, ev).mem, source) == AckedPos(s.disk, source) <= AckedPos(s.mem, source)
    ensures ev.PollSource? && ev.source != source ==> Acked(Step(cfg, s, ev).mem, source) == Acked(s.mem, source)
  {
    if ev.PollSource? {
      if s.phase.Idle? && ev.source in s.dbs { PollEventMoves(cfg, s, ev.source, ev.faults, ev.batchId, ev.saved); }
    } else if ev.AckArrives? {
      AckMovesOne(cfg, s, ev.saved, source);
    } else if !ev.Crash? {
      OthersLeaveCursors(cfg, s, ev);
    }
  }

  predicate OrderlyRun(cfg: Config, s: System, evs: seq<Event>)
    decreases evs
  {
    evs == [] || (InOrder(s, evs[0]) && OrderlyRun(cfg, Step(cfg, s, evs[0]), evs[1..]))
  }

  // Whole runs: the state file is never ahead of memory, restarts or not.
  lemma {:induction false} OrderedRun(cfg: Config, s: System, evs: seq<Event>)
    requires GoodLogs(s.dbs) && Ordered(s) && OrderlyRun(cfg, s, evs)
    ensures GoodLogs(Run(cfg, s, evs).dbs) && Ordered(Run(cfg, s, evs)) && Run(cfg, s, evs).dbs.Keys == s.dbs.Keys
    decreases evs
  {
    if evs != [] {
      StepOrdered(cfg, s, evs[0]);
      LogsStayGood(cfg, s, evs[0]);
      OrderedRun(cfg, Step(cfg, s, evs[0]), evs[1..]);
    }
  }

  // Whole runs without a restart: no acknowledged position ever falls.
  lemma {:induction false} CursorsNeverFallBack(cfg: Config, s: System, evs: seq<Event>, source: string)
    requires GoodLogs(s.dbs) && Ordered(s) && OrderlyRun(cfg, s, evs) && source in s.dbs && Crash !in evs
    ensures AckedPos(s.mem, source) <= AckedPos(Run(cfg, s, evs).mem, source)
    decreases evs
  {
    if evs != [] {
      StepOrdered(cfg, s, evs[0]);
      LogsStayGood(cfg, s, evs[0]);
      CursorsMoveForward(cfg, s, evs[0], source);
      CursorsNeverFallBack(cfg, Step(cfg, s, evs[0]), evs[1..], source);
    }
  }

  lemma OnlyAppendTouchesDatabases(cfg: Config, s: System, ev: Event)
    requires !ev.Append?
    ensures Step(cfg, s, ev).dbs == s.dbs
  {
  }

  lemma LogsStayGood(cfg: Config, s: System, ev: Event)
    requires GoodLogs(s.dbs) && InOrder(s, ev)
    ensures GoodLogs(Step(cfg, s, ev).dbs) && Step(cfg, s, ev).dbs.Keys == s.dbs.Keys
  {
    if !ev.Append? { OnlyAppendTouchesDatabases(cfg, s, ev); }
  }
}
