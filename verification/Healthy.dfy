// Cycles in which nothing fails: they are the rounds of the protocol that drain the logs.
module Healthy {
  import opened Common
  import opened Sequences
  import opened Replica
  import opened Mapping
  import opened Source
  import opened Cursors
  import opened Changes
  import opened Protocol
  import opened Progress
  import opened Drain
  import opened Writer
  import opened Client
  import opened Reader
  import opened Filtering
  import opened Turns

  // No table's read fails and no first save.
  predicate Clean(ch: Choice) {
    ch.faults == [] && ch.saved
  }

  // A clean turn that proceeds does what an undisturbed cycle of its source does.
  lemma ProceedingTurnIsCycle(cfg: Config, target: Target, a: Assembly, source: string, ch: Choice)
    requires a.sys.phase.Idle? && source in a.sys.dbs && Clean(ch)
    requires TurnVerdict(cfg, target, a, source, ch).Proceed?
    ensures AfterTurn(cfg, target, a, source, ch).sys == Run(cfg, a.sys, Cycle(source, ch.batchId))
    ensures AfterTurn(cfg, target, a, source, ch).sys.phase.Idle?
  {
    var s, poll := a.sys, PollEvent(source, ch);
    CycleUnrolled(cfg, s, source, [], ch.batchId);
    CycleRuns(cfg, s, source, ch.batchId, PollOf(cfg, s, source, []));
    if PollVerdict(cfg, s, source, ch).None? {
      assert TurnEvents(cfg, target, a, source, ch) == [poll] + [Commit, AckArrives(true)] == Cycle(source, ch.batchId);
    } else {
      RunOne(cfg, s, poll);
      NoBatchNothingHappens(cfg, Step(cfg, s, poll));
    }
  }

  function VisitsOf(turns: seq<Planned>): seq<Visit> {
    seq(|turns|, i requires 0 <= i < |turns| => Visit(turns[i].source, turns[i].ch.batchId))
  }

  predicate AllClean(turns: seq<Planned>) {
    forall p :: p in turns ==> Clean(p.ch)
  }

  lemma RoundOneMore(visits: seq<Visit>, v: Visit)
    ensures Round(visits + [v]) == Round(visits) + Cycle(v.source, v.batchId)
  {
    assert (visits + [v])[..|visits|] == visits;
  }

  lemma VisitsOneMore(turns: seq<Planned>, p: Planned)
    ensures Round(VisitsOf(turns + [p])) == Round(VisitsOf(turns)) + Cycle(p.source, p.ch.batchId)
  {
    assert VisitsOf(turns + [p]) == VisitsOf(turns) + [Visit(p.source, p.ch.batchId)];
    RoundOneMore(VisitsOf(turns), Visit(p.source, p.ch.batchId));
  }

  // So a sync cycle that is clean and comes to its regular end is a round of the protocol.
  lemma {:induction false} HealthyCycleIsRound(cfg: Config, target: Target, a: Assembly, plan: seq<Planned>, k: nat)
    requires k <= |plan| && a.sys.phase.Idle? && AllClean(WithReader(plan[..k], a.sys.dbs.Keys))
    requires CycleTo(cfg, target, a, plan, k).early.None?
    ensures var s' := CycleTo(cfg, target, a, plan, k).at.sys;
            s'.phase.Idle? && s' == Run(cfg, a.sys, Round(VisitsOf(WithReader(plan[..k], a.sys.dbs.Keys))))
  {
    if k > 0 {
      var readers := a.sys.dbs.Keys;
      var due, g, p := WithReader(plan[..k - 1], readers), CycleTo(cfg, target, a, plan, k - 1), plan[k - 1];
      WithReaderNext(plan, k - 1, readers);
      CycleKeepsLogs(cfg, target, a, plan, k - 1);
      HealthyCycleIsRound(cfg, target, a, plan, k - 1);
      if p.source in readers {
        assert p in WithReader(plan[..k], readers);
        ProceedingTurnIsCycle(cfg, target, g.at, p.source, p.ch);
        VisitsOneMore(due, p);
        RunConcat(cfg, a.sys, Round(VisitsOf(due)), Cycle(p.source, p.ch.batchId));
      }
    } else {
      assert plan[..0] == [];
    }
  }

  // And it leaves out no source, if every database has its reader and its entry in the configuration.
  lemma CycleIsFull(cfg: Config, dbs: Databases, choices: seq<Choice>)
    requires |choices| == |cfg.sources| && forall source :: source in dbs ==> source in cfg.sources
    ensures FullRound(dbs, VisitsOf(WithReader(Plan(cfg.sources, choices), dbs.Keys)))
  {
    var plan := Plan(cfg.sources, choices);
    var due := WithReader(plan, dbs.Keys);
    var f := (p: Planned) => p.source in dbs.Keys;
    forall v | v in VisitsOf(due)
      ensures v.source in dbs
    {
      var i :| 0 <= i < |due| && VisitsOf(due)[i] == v;
      FilterMember(f, plan, due[i]);
    }
    forall source | source in dbs
      ensures Visits(VisitsOf(due), source)
    {
      var i :| 0 <= i < |cfg.sources| && cfg.sources[i] == source;
      FilterMember(f, plan, plan[i]);
      var j :| 0 <= j < |due| && due[j] == plan[i];
      assert VisitsOf(due)[j] in VisitsOf(due);
    }
  }

  // ---------- what makes a cycle healthy ----------

  // Nothing goes wrong around a source: reads, saves, the exchange and the connections to the database all work.
  predicate FaultFree(ch: Choice) {
    Clean(ch) && !ch.pollFails && ch.net == Completes(true) && ch.trouble.failAt.None? && ch.ackSaved
  }

  // The server can run the statement for a captured row.
  ghost predicate Executable(cfg: Config, target: Target, source: string, caps: seq<Capture>, e: Entry,
                             truth: (string, string) -> seq<string>, schemas: set<string>) {
    IsTracked(cfg, source, caps, e) ==>
      var c := SentAs(cfg, source, caps, e);
      FixedKeys(target, c, truth, schemas) && StatementOk(target, c, truth)
  }

  // The target's tables fit the captured ones: every row in the logs can be replicated.
  ghost predicate Fitting(cfg: Config, target: Target, dbs: Databases, truth: (string, string) -> seq<string>,
                          schemas: set<string>) {
    forall source, e :: source in dbs && e in dbs[source].log ==>
                          && Replicable(cfg, target, source, dbs[source].captures, e)
                          && Executable(cfg, target, source, dbs[source].captures, e, truth, schemas)
  }

  // What the server takes a captured table's key columns to be are the ones it has.
  predicate KeysKnown(cfg: Config, source: string, cap: Capture, truth: (string, string) -> seq<string>,
                      schemas: set<string>) {
    var tt := Resolve(cfg.sources, cfg.tracked, source, cap.schema, cap.table);
    tt.Some? ==> && tt.value.targetSchema in schemas
                 && truth(tt.value.targetSchema, tt.value.targetTable) == KeyNames(cap.columns)
  }

  // In terms of the tables: the statement for a row of a table with a primary key can be run if and only if it is a
  // before-image or an unknown operation, or its target table exists and has the columns the statement names: all
  // of the captured table's for an insert or after-image, those of the key for a delete.
  lemma ExecutableIff(cfg: Config, target: Target, source: string, caps: seq<Capture>, e: Entry,
                      truth: (string, string) -> seq<string>, schemas: set<string>)
    requires IsTracked(cfg, source, caps, e) && Replicable(cfg, target, source, caps, e)
    requires target.mappings == cfg.mappings && KeyNames(caps[e.capture].columns) != []
    requires KeysKnown(cfg, source, caps[e.capture], truth, schemas)
    ensures var cap, table := caps[e.capture], TargetOf(cfg, source, caps[e.capture]).value;
            Executable(cfg, target, source, caps, e, truth, schemas) <==>
            && (e.op == 2 || e.op == 4
                ==> table in target.catalog && ColumnNames(cap.columns) <= target.catalog[table].columns)
            && (e.op == 1 ==> table in target.catalog && Names(KeyNames(cap.columns)) <= target.catalog[table].columns)
  {
    var cap := caps[e.capture];
    var pk := KeyNames(cap.columns);
    FullRow(cap.columns, e.values);
    KeyAgreement(cap.columns, e.values);
    assert pk[0] in Names(pk);
  }

  // Every tracked table has a primary key and a target table with the same key and at least its columns.
  ghost predicate TablesFit(cfg: Config, target: Target, dbs: Databases, truth: (string, string) -> seq<string>,
                            schemas: set<string>) {
    forall source, i :: source in dbs && 0 <= i < |dbs[source].captures|
                        && TargetOf(cfg, source, dbs[source].captures[i]).Some?
                        ==> TableFits(cfg, target, source, dbs[source].captures[i], truth, schemas)
  }

  predicate TableFits(cfg: Config, target: Target, source: string, cap: Capture,
                      truth: (string, string) -> seq<string>, schemas: set<string>)
    requires TargetOf(cfg, source, cap).Some?
  {
    var table := TargetOf(cfg, source, cap).value;
    && DistinctNames(cap.columns) && KeyNames(cap.columns) != [] && KeysKnown(cfg, source, cap, truth, schemas)
    && table in target.catalog && Names(KeyNames(cap.columns)) == Names(target.catalog[table].primaryKey)
    && ColumnNames(cap.columns) <= target.catalog[table].columns
  }

  ghost predicate CompleteRows(dbs: Databases) {
    forall source, e :: source in dbs && e in dbs[source].log && e.capture < |dbs[source].captures|
                        ==> |e.values| >= |dbs[source].captures[e.capture].columns|
  }

  // Then every complete row can be replicated, whatever its operation.
  lemma FittingTables(cfg: Config, target: Target, dbs: Databases, truth: (string, string) -> seq<string>,
                      schemas: set<string>)
    requires TablesFit(cfg, target, dbs, truth, schemas) && CompleteRows(dbs) && target.mappings == cfg.mappings
    ensures Fitting(cfg, target, dbs, truth, schemas)
  {
    forall source, e | source in dbs && e in dbs[source].log
      ensures Replicable(cfg, target, source, dbs[source].captures, e)
      ensures Executable(cfg, target, source, dbs[source].captures, e, truth, schemas)
    {
      var caps := dbs[source].captures;
      if IsTracked(cfg, source, caps, e) {
        assert TableFits(cfg, target, source, caps[e.capture], truth, schemas);
        ExecutableIff(cfg, target, source, caps, e, truth, schemas);
        KeysAreColumns(caps[e.capture].columns);
      }
    }
  }

  lemma KeysAreColumns(columns: seq<ColumnMeta>)
    ensures Names(KeyNames(columns)) <= ColumnNames(columns)
  {
    forall name | name in KeyNames(columns)
      ensures name in ColumnNames(columns)
    {
      KeyNamesMember(columns, name);
    }
  }

  // The logs are in order, and the target's tables fit the captured ones.
  ghost predicate Suited(cfg: Config, target: Target, dbs: Databases, truth: (string, string) -> seq<string>,
                         schemas: set<string>) {
    && target.mappings == cfg.mappings && Fitting(cfg, target, dbs, truth, schemas)
    && forall source :: source in dbs ==> WellFormed(dbs[source])
  }

  // The target's deferred constraints hold all along a run.
  ghost predicate ConstraintsHold(cfg: Config, target: Target, s: System, evs: seq<Event>) {
    forall k :: 0 <= k <= |evs| ==> target.constraints(Run(cfg, s, evs[..k]).target)
  }

  lemma ConstraintsSplit(cfg: Config, target: Target, s: System, a: seq<Event>, b: seq<Event>)
    requires ConstraintsHold(cfg, target, s, a + b)
    ensures ConstraintsHold(cfg, target, s, a) && ConstraintsHold(cfg, target, Run(cfg, s, a), b)
  {
    forall k | 0 <= k <= |a|
      ensures target.constraints(Run(cfg, s, a[..k]).target)
    {
      assert (a + b)[..k] == a[..k];
    }
    forall k | 0 <= k <= |b|
      ensures target.constraints(Run(cfg, Run(cfg, s, a), b[..k]).target)
    {
      assert (a + b)[..|a| + k] == a + b[..k];
      RunConcat(cfg, s, a, b[..k]);
    }
  }

  lemma CarriedExecutable(cfg: Config, target: Target, source: string, caps: seq<Capture>, changes: seq<Change>,
                          rows: seq<Entry>, truth: (string, string) -> seq<string>, schemas: set<string>)
    requires Carries(cfg, source, caps, changes, rows)
    requires forall e :: e in rows ==> Executable(cfg, target, source, caps, e, truth, schemas)
    ensures forall c :: c in changes ==> FixedKeys(target, c, truth, schemas) && StatementOk(target, c, truth)
  {
    forall c | c in changes
      ensures FixedKeys(target, c, truth, schemas) && StatementOk(target, c, truth)
    {
      var k :| 0 <= k < |changes| && changes[k] == c;
      assert CarriesOne(cfg, source, caps, c, rows[k]);
      assert Executable(cfg, target, source, caps, rows[k], truth, schemas);
    }
  }

  // A batch that carries rows of fitting tables is committed if and only if the constraints hold after it.
  lemma CarriedAcceptedIff(cfg: Config, target: Target, source: string, caps: seq<Capture>, changes: seq<Change>,
                           rows: seq<Entry>, cache: KeyCache, truth: (string, string) -> seq<string>,
                           schemas: set<string>, db: DB)
    requires Carries(cfg, source, caps, changes, rows) && target.mappings == cfg.mappings
    requires KeyedDb(target, db) && CacheAgrees(cache, truth, schemas)
    requires forall e :: e in rows ==> Replicable(cfg, target, source, caps, e)
    requires forall e :: e in rows ==> Executable(cfg, target, source, caps, e, truth, schemas)
    ensures var a := ApplyAll(target, cache, changes, true, None, db);
            var after := Apply(Writes(cfg, source, caps, rows), db);
            && (a.result.Ok? <==> target.constraints(after)) && CacheAgrees(a.cache, truth, schemas)
            && (a.result.Ok? ==> KeyedDb(target, after))
  {
    CarriedKeys(cfg, target, source, caps, changes, rows);
    CarriedExecutable(cfg, target, source, caps, changes, rows, truth, schemas);
    CarriedWrites(cfg, source, caps, changes, rows);
    AcceptedIff(target, cache, changes, truth, schemas, db);
  }

  lemma PolledInLog(cfg: Config, s: System, source: string, faults: seq<ReadFault>)
    requires source in s.dbs && WellFormed(s.dbs[source])
    ensures var db, p := s.dbs[source], PollOf(cfg, s, source, faults);
            && Within(db.captures, p.entries)
            && (forall e :: e in Tracked(cfg, source, db.captures, p.entries) ==> e in db.log)
  {
    var db, p := s.dbs[source], PollOf(cfg, s, source, faults);
    ReadRowsInLog(db, 0, StartLsn(db, PollCursor(s.mem, source)), cfg.batchSize, faults, []);
    forall e | e in p.entries
      ensures e.capture < |db.captures|
    {
      assert GoodEntry(db, e);
    }
    forall e | e in Tracked(cfg, source, db.captures, p.entries)
      ensures e in db.log
    {
      FilterMember((x: Entry) => IsTracked(cfg, source, db.captures, x), p.entries, e);
    }
  }

  // The client is between cycles, the target in order, and the server has learned nothing wrong.
  ghost predicate Receptive(target: Target, a: Assembly, truth: (string, string) -> seq<string>, schemas: set<string>) {
    a.sys.phase == Idle && KeyedDb(target, a.sys.target) && CacheAgrees(a.cache, truth, schemas)
  }

  lemma PolledCarries(cfg: Config, s: System, source: string, ch: Choice)
    requires source in s.dbs && WellFormed(s.dbs[source])
    ensures Carries(cfg, source, s.dbs[source].captures, BatchFor(cfg, s, source, ch),
                    Tracked(cfg, source, s.dbs[source].captures, PollOf(cfg, s, source, ch.faults).entries))
  {
    var caps, p := s.dbs[source].captures, PollOf(cfg, s, source, ch.faults);
    PolledInLog(cfg, s, source, ch.faults);
    FilteredCarries(cfg, source, caps, p.entries);
    var rows := Tracked(cfg, source, caps, p.entries);
    StampedCarries(cfg, source, caps, Selection(cfg, source, caps, p.entries), rows, ch.batchId);
  }

  lemma CycleWrites(cfg: Config, s: System, source: string, batchId: string)
    requires s.phase == Idle && source in s.dbs
    requires Tracked(cfg, source, s.dbs[source].captures, PollOf(cfg, s, source, []).entries) != []
    ensures Run(cfg, s, Cycle(source, batchId)).target
            == Apply(Writes(cfg, source, s.dbs[source].captures,
                            Tracked(cfg, source, s.dbs[source].captures, PollOf(cfg, s, source, []).entries)), s.target)
  {
    CycleUnrolled(cfg, s, source, [], batchId);
    CycleLeaves(cfg, s, source, batchId, PollOf(cfg, s, source, []));
  }

  // The batch of a fault-free turn is committed if and only if the constraints hold after its cycle.
  lemma FaultFreeBatchIff(cfg: Config, target: Target, a: Assembly, source: string, ch: Choice,
                          truth: (string, string) -> seq<string>, schemas: set<string>)
    requires Receptive(target, a, truth, schemas) && Suited(cfg, target, a.sys.dbs, truth, schemas)
    requires source in a.sys.dbs && FaultFree(ch)
    requires PollVerdict(cfg, a.sys, source, ch).None?
    ensures var applied := Applying(cfg, target, a, source, ch);
            var after := Run(cfg, a.sys, Cycle(source, ch.batchId)).target;
            && (applied.result.Ok? <==> target.constraints(after)) && CacheAgrees(applied.cache, truth, schemas)
            && (applied.result.Ok? ==> KeyedDb(target, after))
  {
    var s, caps := a.sys, a.sys.dbs[source].captures;
    var rows := Tracked(cfg, source, caps, PollOf(cfg, s, source, []).entries);
    PolledInLog(cfg, s, source, []);
    PolledCarries(cfg, s, source, ch);
    CycleWrites(cfg, s, source, ch.batchId);
    CarriedAcceptedIff(cfg, target, source, caps, BatchFor(cfg, s, source, ch), rows, a.cache, truth, schemas,
                       s.target);
  }

  // So a fault-free turn proceeds if and only if it sends nothing or the constraints hold after its cycle.
  lemma FaultFreeTurnIff(cfg: Config, target: Target, a: Assembly, source: string, ch: Choice,
                         truth: (string, string) -> seq<string>, schemas: set<string>)
    requires Receptive(target, a, truth, schemas) && Suited(cfg, target, a.sys.dbs, truth, schemas)
    requires source in a.sys.dbs && FaultFree(ch)
    ensures var v := TurnVerdict(cfg, target, a, source, ch);
            && (v.Proceed? <==> || PollVerdict(cfg, a.sys, source, ch).Some?
                                || target.constraints(Run(cfg, a.sys, Cycle(source, ch.batchId)).target))
            && (v.Proceed? ==> Receptive(target, AfterTurn(cfg, target, a, source, ch), truth, schemas))
  {
    if PollVerdict(cfg, a.sys, source, ch).None? {
      FaultFreeBatchIff(cfg, target, a, source, ch, truth, schemas);
    } else {
      RunOne(cfg, a.sys, PollEvent(source, ch));
    }
    if TurnVerdict(cfg, target, a, source, ch).Proceed? {
      ProceedingTurnIsCycle(cfg, target, a, source, ch);
    }
  }

  // In terms of the tables: over complete rows of tables that fit, a fault-free turn proceeds if and only if its poll
  // returns no tracked row or the constraints hold after its cycle.
  lemma FaultFreeTurnOfTablesIff(cfg: Config, target: Target, a: Assembly, source: string, ch: Choice,
                                 truth: (string, string) -> seq<string>, schemas: set<string>)
    requires Receptive(target, a, truth, schemas) && source in a.sys.dbs && FaultFree(ch)
    requires TablesFit(cfg, target, a.sys.dbs, truth, schemas) && CompleteRows(a.sys.dbs)
    requires target.mappings == cfg.mappings && forall x :: x in a.sys.dbs ==> WellFormed(a.sys.dbs[x])
    ensures var caps := a.sys.dbs[source].captures;
            var rows := Tracked(cfg, source, caps, PollOf(cfg, a.sys, source, []).entries);
            TurnVerdict(cfg, target, a, source, ch).Proceed? <==>
            rows == [] || target.constraints(Apply(Writes(cfg, source, caps, rows), a.sys.target))
  {
    FittingTables(cfg, target, a.sys.dbs, truth, schemas);
    FaultFreeTurnIff(cfg, target, a, source, ch, truth, schemas);
    var rows := Tracked(cfg, source, a.sys.dbs[source].captures, PollOf(cfg, a.sys, source, []).entries);
    if rows != [] { CycleWrites(cfg, a.sys, source, ch.batchId); }
  }

  predicate AllFaultFree(turns: seq<Planned>) {
    forall p :: p in turns ==> FaultFree(p.ch)
  }

  lemma OneMoreFaultFree(cfg: Config, target: Target, a: Assembly, before: Assembly, due: seq<Planned>, p: Planned,
                         truth: (string, string) -> seq<string>, schemas: set<string>)
    requires before.sys == Run(cfg, a.sys, Round(VisitsOf(due))) && p.source in before.sys.dbs && FaultFree(p.ch)
    requires Receptive(target, before, truth, schemas) && Suited(cfg, target, before.sys.dbs, truth, schemas)
    requires ConstraintsHold(cfg, target, a.sys, Round(VisitsOf(due + [p])))
    ensures TurnVerdict(cfg, target, before, p.source, p.ch).Proceed?
    ensures Receptive(target, AfterTurn(cfg, target, before, p.source, p.ch), truth, schemas)
  {
    var cycle := Cycle(p.source, p.ch.batchId);
    VisitsOneMore(due, p);
    ConstraintsSplit(cfg, target, a.sys, Round(VisitsOf(due)), cycle);
    assert cycle[..|cycle|] == cycle;
    FaultFreeTurnIff(cfg, target, before, p.source, p.ch, truth, schemas);
  }

  lemma NextProceeds(cfg: Config, target: Target, g: Progressed, p: Planned)
    requires g.early.None?
    requires p.source in g.at.sys.dbs ==> TurnVerdict(cfg, target, g.at, p.source, p.ch).Proceed?
    ensures var g' := NextTurn(cfg, target, g, p);
            && g'.early.None?
            && g'.at == if p.source in g.at.sys.dbs then AfterTurn(cfg, target, g.at, p.source, p.ch) else g.at
  {
  }

  lemma FaultFreeNext(cfg: Config, target: Target, a: Assembly, g: Progressed, due: seq<Planned>, p: Planned,
                      truth: (string, string) -> seq<string>, schemas: set<string>)
    requires g.early.None? && g.at.sys == Run(cfg, a.sys, Round(VisitsOf(due)))
    requires Receptive(target, g.at, truth, schemas) && Suited(cfg, target, g.at.sys.dbs, truth, schemas)
    requires p.source in g.at.sys.dbs
             ==> FaultFree(p.ch) && ConstraintsHold(cfg, target, a.sys, Round(VisitsOf(due + [p])))
    ensures NextTurn(cfg, target, g, p).early.None?
    ensures Receptive(target, NextTurn(cfg, target, g, p).at, truth, schemas)
  {
    if p.source in g.at.sys.dbs {
      OneMoreFaultFree(cfg, target, a, g.at, due, p, truth, schemas);
    }
    NextProceeds(cfg, target, g, p);
  }

  lemma FewerVisitsHold(cfg: Config, target: Target, s: System, due: seq<Planned>, p: Planned)
    requires ConstraintsHold(cfg, target, s, Round(VisitsOf(due + [p])))
    ensures ConstraintsHold(cfg, target, s, Round(VisitsOf(due)))
  {
    VisitsOneMore(due, p);
    ConstraintsSplit(cfg, target, s, Round(VisitsOf(due)), Cycle(p.source, p.ch.batchId));
  }

  // A fault-free cycle comes to its regular end if the constraints hold all along its round.
  lemma {:induction false} FaultFreeCycle(cfg: Config, target: Target, a: Assembly, plan: seq<Planned>, k: nat,
                                          truth: (string, string) -> seq<string>, schemas: set<string>)
    requires k <= |plan| && AllFaultFree(WithReader(plan[..k], a.sys.dbs.Keys))
    requires Receptive(target, a, truth, schemas) && Suited(cfg, target, a.sys.dbs, truth, schemas)
    requires ConstraintsHold(cfg, target, a.sys, Round(VisitsOf(WithReader(plan[..k], a.sys.dbs.Keys))))
    ensures var g := CycleTo(cfg, target, a, plan, k); g.early.None? && Receptive(target, g.at, truth, schemas)
  {
    if k > 0 {
      var readers, p := a.sys.dbs.Keys, plan[k - 1];
      var due := WithReader(plan[..k - 1], readers);
      WithReaderNext(plan, k - 1, readers);
      if p.source in readers {
        assert p in due + [p];
        assert forall q :: q in due ==> q in due + [p];
        FewerVisitsHold(cfg, target, a.sys, due, p);
      }
      FaultFreeCycle(cfg, target, a, plan, k - 1, truth, schemas);
      HealthyCycleIsRound(cfg, target, a, plan, k - 1);
      CycleKeepsLogs(cfg, target, a, plan, k - 1);
      FaultFreeNext(cfg, target, a, CycleTo(cfg, target, a, plan, k - 1), due, p, truth, schemas);
    }
  }

  // ---------- whatever happens, the client stays ready for such cycles ----------

  lemma DeliveryLeaves(cfg: Config, f: System, ch: Choice, committed: bool)
    requires f.phase.InFlight? && f.phase.source in f.dbs
    ensures var s' := Run(cfg, f, DeliveryEvents(ch, committed));
            && s'.phase == Idle
            && s'.target == if committed then Apply(Writes(cfg, f.phase.source, f.dbs[f.phase.source].captures,
                                                           f.phase.rows), f.target)
                            else f.target
  {
    if committed {
      var evs := DeliveryEvents(ch, committed);
      assert evs == [Commit] + [evs[1]];
      RunConcat(cfg, f, [Commit], [evs[1]]);
      RunOne(cfg, f, Commit);
      RunOne(cfg, Run(cfg, f, [Commit]), evs[1]);
    } else {
      RunOne(cfg, f, Reject);
    }
  }

  lemma PollEventLeaves(cfg: Config, s: System, source: string, ch: Choice)
    requires s.phase == Idle && source in s.dbs
    ensures var s' := Run(cfg, s, [PollEvent(source, ch)]);
            var rows := Tracked(cfg, source, s.dbs[source].captures, PollOf(cfg, s, source, ch.faults).entries);
            && s'.dbs == s.dbs && s'.target == s.target
            && s'.phase == if PollVerdict(cfg, s, source, ch).Some? then Idle else InFlight(source, ch.batchId, rows)
  {
    RunOne(cfg, s, PollEvent(source, ch));
  }

  // Applying what a turn sends, wherever it fails, keeps the cache right, and the target in order if it commits.
  lemma ApplyingKeepsOrder(cfg: Config, target: Target, a: Assembly, source: string, ch: Choice,
                           truth: (string, string) -> seq<string>, schemas: set<string>)
    requires Receptive(target, a, truth, schemas) && Suited(cfg, target, a.sys.dbs, truth, schemas)
    requires source in a.sys.dbs
    ensures var applied, caps := Applying(cfg, target, a, source, ch), a.sys.dbs[source].captures;
            var rows := Tracked(cfg, source, caps, PollOf(cfg, a.sys, source, ch.faults).entries);
            && CacheAgrees(applied.cache, truth, schemas)
            && (applied.result.Ok? ==> KeyedDb(target, Apply(Writes(cfg, source, caps, rows), a.sys.target)))
  {
    var caps, batch := a.sys.dbs[source].captures, BatchFor(cfg, a.sys, source, ch);
    var rows := Tracked(cfg, source, caps, PollOf(cfg, a.sys, source, ch.faults).entries);
    PolledInLog(cfg, a.sys, source, ch.faults);
    PolledCarries(cfg, a.sys, source, ch);
    CarriedExecutable(cfg, target, source, caps, batch, rows, truth, schemas);
    UpToKeepsCache(target, a.cache, batch, |batch|, ch.trouble.failAt, a.sys.target, truth, schemas);
    if Applying(cfg, target, a, source, ch).result.Ok? {
      CommitOfCarried(cfg, target, source, caps, batch, rows, a.cache, ch.trouble.failAt, a.sys.target);
    }
  }

  lemma TurnStaysReceptive(cfg: Config, target: Target, a: Assembly, source: string, ch: Choice,
                           truth: (string, string) -> seq<string>, schemas: set<string>)
    requires Receptive(target, a, truth, schemas) && Suited(cfg, target, a.sys.dbs, truth, schemas)
    requires source in a.sys.dbs
    ensures Receptive(target, AfterTurn(cfg, target, a, source, ch), truth, schemas)
  {
    PollEventLeaves(cfg, a.sys, source, ch);
    if !ch.pollFails && PollVerdict(cfg, a.sys, source, ch).None? {
      var f := Run(cfg, a.sys, [PollEvent(source, ch)]);
      var committed := Commits(ch.net, Applying(cfg, target, a, source, ch));
      RunConcat(cfg, a.sys, [PollEvent(source, ch)], DeliveryEvents(ch, committed));
      DeliveryLeaves(cfg, f, ch, committed);
      ApplyingKeepsOrder(cfg, target, a, source, ch, truth, schemas);
    }
  }

  // Faults of any kind leave the server's cache right, its tables in order and the client between cycles.
  lemma {:induction false} CycleStaysReceptive(cfg: Config, target: Target, a: Assembly, plan: seq<Planned>, k: nat,
                                               truth: (string, string) -> seq<string>, schemas: set<string>)
    requires k <= |plan| && Receptive(target, a, truth, schemas) && Suited(cfg, target, a.sys.dbs, truth, schemas)
    ensures Receptive(target, CycleTo(cfg, target, a, plan, k).at, truth, schemas)
  {
    if k > 0 {
      var g, p := CycleTo(cfg, target, a, plan, k - 1), plan[k - 1];
      CycleStaysReceptive(cfg, target, a, plan, k - 1, truth, schemas);
      CycleKeepsLogs(cfg, target, a, plan, k - 1);
      if p.source in g.at.sys.dbs { TurnStaysReceptive(cfg, target, g.at, p.source, p.ch, truth, schemas); }
    }
  }
}
