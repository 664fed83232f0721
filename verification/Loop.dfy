// The client's main loop: sync cycles, one after the other, over logs that may grow between them, backing off after
// failures.
module Loop {
  import opened Common
  import opened Lsn
  import opened Replica
  import opened Source
  import opened Protocol
  import opened Invariant
  import opened Safety
  import opened Progress
  import opened Drain
  import opened Writer
  import opened Server
  import opened Retry
  import opened Reader
  import opened Filtering
  import opened Turns
  import opened Orchestrator

  // ---------- what arrives between cycles ----------

  // Rows that a source's capture job harvests, and the maximum LSN it then reports.
  datatype Arrival = Arrival(source: string, rows: seq<Entry>, maxLsn: Lsn)

  function Appends(news: seq<Arrival>): seq<Event> {
    seq(|news|, i requires 0 <= i < |news| => Append(news[i].source, news[i].rows, news[i].maxLsn))
  }

  function Extended(db: SourceDb, n: Arrival): SourceDb {
    db.(log := db.log + n.rows, maxLsn := n.maxLsn)
  }

  function Joined(dbs: Databases, n: Arrival): Databases {
    if n.source in dbs then dbs[n.source := Extended(dbs[n.source], n)] else dbs
  }

  // The databases after some arrivals.
  function Arrived(dbs: Databases, news: seq<Arrival>): Databases {
    if news == [] then dbs else Joined(Arrived(dbs, news[..|news| - 1]), news[|news| - 1])
  }

  function Harvested(a: Assembly, news: seq<Arrival>): Assembly {
    a.(sys := a.sys.(dbs := Arrived(a.sys.dbs, news)))
  }

  lemma {:induction false} ArrivalsAreAppends(cfg: Config, s: System, news: seq<Arrival>)
    ensures Run(cfg, s, Appends(news)) == s.(dbs := Arrived(s.dbs, news))
  {
    if news != [] {
      var n := |news| - 1;
      ArrivalsAreAppends(cfg, s, news[..n]);
      var last := Append(news[n].source, news[n].rows, news[n].maxLsn);
      assert Appends(news) == Appends(news[..n]) + [last];
      RunConcat(cfg, s, Appends(news[..n]), [last]);
      RunOne(cfg, Run(cfg, s, Appends(news[..n])), last);
    }
  }

  // A log grows as SQL Server makes it grow, by rows that can be replicated.
  predicate GoodArrival(cfg: Config, target: Target, dbs: Databases, n: Arrival) {
    n.source in dbs ==>
      && WellFormed(Extended(dbs[n.source], n))
      && forall e :: e in n.rows ==> Replicable(cfg, target, n.source, dbs[n.source].captures, e)
  }

  predicate GoodNews(cfg: Config, target: Target, dbs: Databases, news: seq<Arrival>) {
    forall i :: 0 <= i < |news| ==> GoodArrival(cfg, target, Arrived(dbs, news[..i]), news[i])
  }

  // ---------- the loop ----------

  // One time around the loop: what has arrived before the cycle, and what the environment chooses in it.
  datatype Tick = Tick(news: seq<Arrival>, choices: seq<Choice>)

  // A choice for every source, each with a category for its error.
  predicate GoodChoices(cfg: Config, choices: seq<Choice>) {
    |choices| == |cfg.sources| && forall ch :: ch in choices ==> IsCategory(ch.trouble.category)
  }

  predicate GoodTicks(cfg: Config, ticks: seq<Tick>) {
    forall tick :: tick in ticks ==> GoodChoices(cfg, tick.choices)
  }

  // The system after n times around, and the cycle of each.
  function LoopTo(cfg: Config, target: Target, a: Assembly, ticks: seq<Tick>, n: nat): Assembly
    requires n <= |ticks| && GoodTicks(cfg, ticks)
    decreases n, 0
  {
    if n == 0 then a else CycleNo(cfg, target, a, ticks, n - 1).at
  }

  function CycleNo(cfg: Config, target: Target, a: Assembly, ticks: seq<Tick>, i: nat): Progressed
    requires i < |ticks| && GoodTicks(cfg, ticks)
    decreases i, 1
  {
    Cycled(cfg, target, Harvested(LoopTo(cfg, target, a, ticks, i), ticks[i].news), ticks[i].choices)
  }

  function OutcomeOf(r: Result<nat, ()>): Outcome {
    match r
    case Ok(rows) => Succeeded(rows)
    case Err(_) => Failed
  }

  // How the first n cycles end.
  function Outcomes(cfg: Config, target: Target, a: Assembly, ticks: seq<Tick>, n: nat): (r: seq<Outcome>)
    requires n <= |ticks| && GoodTicks(cfg, ticks)
    ensures |r| == n
  {
    if n == 0 then []
    else Outcomes(cfg, target, a, ticks, n - 1) + [OutcomeOf(ResultOf(CycleNo(cfg, target, a, ticks, n - 1)))]
  }

  lemma {:induction false} OutcomeAt(cfg: Config, target: Target, a: Assembly, ticks: seq<Tick>, n: nat, i: nat)
    requires i < n <= |ticks| && GoodTicks(cfg, ticks)
    ensures Outcomes(cfg, target, a, ticks, n)[i] == OutcomeOf(ResultOf(CycleNo(cfg, target, a, ticks, i)))
    decreases n
  {
    if i < n - 1 { OutcomeAt(cfg, target, a, ticks, n - 1, i); }
  }

  lemma CycleNoReturns(cfg: Config, target: Target, a: Assembly, ticks: seq<Tick>, i: nat)
    requires i < |ticks| && GoodTicks(cfg, ticks)
    ensures var g := CycleNo(cfg, target, a, ticks, i); CycleReturns(cfg, target, g.turns, ResultOf(g))
  {
    CycleReturnsRows(cfg, target, Harvested(LoopTo(cfg, target, a, ticks, i), ticks[i].news), ticks[i].choices);
  }

  // What the loop learns of its cycles: a failure, or the rows that the acknowledgments of the cycle's turns reported.
  lemma OutcomesReport(cfg: Config, target: Target, a: Assembly, ticks: seq<Tick>, n: nat, i: nat, outcome: Outcome)
    requires i < n <= |ticks| && GoodTicks(cfg, ticks) && outcome == Outcomes(cfg, target, a, ticks, n)[i]
    ensures CycleReturns(cfg, target, CycleNo(cfg, target, a, ticks, i).turns,
                         if outcome.Failed? then Err(()) else Ok(outcome.rows))
  {
    OutcomeAt(cfg, target, a, ticks, n, i);
    CycleNoReturns(cfg, target, a, ticks, i);
  }

  lemma LoopNext(cfg: Config, target: Target, a: Assembly, ticks: seq<Tick>, i: nat, n: nat, g: Progressed)
    requires n == i + 1 <= |ticks| && GoodTicks(cfg, ticks)
    requires g == Cycled(cfg, target, Harvested(LoopTo(cfg, target, a, ticks, i), ticks[i].news), ticks[i].choices)
    ensures LoopTo(cfg, target, a, ticks, n) == g.at
    ensures Outcomes(cfg, target, a, ticks, n) == Outcomes(cfg, target, a, ticks, i) + [OutcomeOf(ResultOf(g))]
  {
  }

  // The databases after n times around: cycles leave them alone.
  function DatabasesTo(dbs: Databases, ticks: seq<Tick>, n: nat): Databases
    requires n <= |ticks|
  {
    if n == 0 then dbs else Arrived(DatabasesTo(dbs, ticks, n - 1), ticks[n - 1].news)
  }

  predicate AllGoodNews(cfg: Config, target: Target, dbs: Databases, ticks: seq<Tick>) {
    forall i :: 0 <= i < |ticks| ==> GoodNews(cfg, target, DatabasesTo(dbs, ticks, i), ticks[i].news)
  }

  lemma {:induction false} OnlyNewsGrowsLogs(cfg: Config, target: Target, a: Assembly, ticks: seq<Tick>, n: nat)
    requires n <= |ticks| && GoodTicks(cfg, ticks)
    ensures LoopTo(cfg, target, a, ticks, n).sys.dbs == DatabasesTo(a.sys.dbs, ticks, n)
  {
    if n > 0 {
      OnlyNewsGrowsLogs(cfg, target, a, ticks, n - 1);
      var h := Harvested(LoopTo(cfg, target, a, ticks, n - 1), ticks[n - 1].news);
      CycleKeepsLogs(cfg, target, h, Plan(cfg.sources, ticks[n - 1].choices), |cfg.sources|);
    }
  }

  // ---------- backing off ----------

  // How far the loop has come after some cycles without giving up.
  ghost predicate KeptGoing(c: RetryConfig, pollIntervalMs: nat, outcomes: seq<Outcome>, streak: nat, waits: seq<int>) {
    && streak == Streak(outcomes, |outcomes|) && waits == Waits(c, pollIntervalMs, outcomes, |outcomes|)
    && forall i :: 0 <= i < |outcomes| ==> !GivesUpAt(c, outcomes, i)
  }

  // The loop as it ends: given up with the last cycle, which is the first to reach the limit, or cancelled.
  ghost predicate LoopEnded(c: RetryConfig, pollIntervalMs: nat, outcomes: seq<Outcome>, end: RunEnd, waits: seq<int>) {
    var n := if end.GaveUp? then end.at else |outcomes|;
    && (end.GaveUp? ==> end.at + 1 == |outcomes| && GivesUpAt(c, outcomes, end.at))
    && waits == Waits(c, pollIntervalMs, outcomes, n)
    && forall i :: 0 <= i < n ==> !GivesUpAt(c, outcomes, i)
  }

  ghost predicate LoopAt(c: RetryConfig, pollIntervalMs: nat, outcomes: seq<Outcome>, end: RunEnd, streak: nat,
                         waits: seq<int>) {
    if end.GaveUp? then LoopEnded(c, pollIntervalMs, outcomes, end, waits)
    else KeptGoing(c, pollIntervalMs, outcomes, streak, waits)
  }

  lemma NextOutcome(c: RetryConfig, pollIntervalMs: nat, outcomes: seq<Outcome>, outcome: Outcome, streak: nat,
                    waits: seq<int>)
    requires KeptGoing(c, pollIntervalMs, outcomes, streak, waits)
    ensures outcome.Failed? && streak + 1 >= c.maxRetries
            ==> LoopEnded(c, pollIntervalMs, outcomes + [outcome], GaveUp(|outcomes|), waits)
    ensures outcome.Failed? && streak + 1 < c.maxRetries
            ==> KeptGoing(c, pollIntervalMs, outcomes + [outcome], streak + 1, waits + [Delay(c, streak + 1)])
    ensures outcome.Succeeded? ==> KeptGoing(c, pollIntervalMs, outcomes + [outcome], 0,
                                             waits + if outcome.rows == 0 then [pollIntervalMs] else [])
  {
    PrefixDecides(c, pollIntervalMs, outcomes, outcomes + [outcome], |outcomes|);
  }

  // What a cycle's result means for the loop: how many have failed in a row, whether that is too many, and
  // otherwise what to wait before the next one.
  method AfterCycle(c: RetryConfig, pollIntervalMs: nat, r: Result<nat, ()>, consecutiveErrors: nat, waits: seq<int>,
                    done: nat, ghost outcomes: seq<Outcome>)
    returns (end: RunEnd, consecutiveErrors': nat, waits': seq<int>)
    requires LoopAt(c, pollIntervalMs, outcomes, Cancelled, consecutiveErrors, waits) && done == |outcomes|
    ensures LoopAt(c, pollIntervalMs, outcomes + [OutcomeOf(r)], end, consecutiveErrors', waits')
  {
    NextOutcome(c, pollIntervalMs, outcomes, OutcomeOf(r), consecutiveErrors, waits);
    end, waits' := Cancelled, waits;
    if r.Err? {
      consecutiveErrors' := consecutiveErrors + 1;
      if consecutiveErrors' >= c.maxRetries {
        return GaveUp(done), consecutiveErrors', waits;
      }
      var delay := DelayForAttempt(c, consecutiveErrors');
      waits' := waits + [delay];
    } else {
      consecutiveErrors' := 0;
      if r.value == 0 {
        waits' := waits + [pollIntervalMs];
      }
    }
  }

  // ---------- the loop over the assembled code ----------

  ghost predicate Separate(readers: map<string, MSSQLReader>) {
    forall source, other :: source in readers && other in readers && readers[source] == readers[other]
                            ==> source == other
  }

  // A source's log grows.
  method GrowLog(reader: MSSQLReader, n: Arrival)
    requires reader.Valid() && WellFormed(Extended(reader.db, n))
    modifies reader`db
    ensures reader.Valid() && reader.db == Extended(old(reader.db), n)
  {
    reader.db := Extended(reader.db, n);
  }

  method Grow(o: SyncOrchestrator, n: Arrival)
    requires o.Valid() && Separate(o.readers) && GoodArrival(o.cfg, o.client.service.writer.target, o.Dbs(), n)
    modifies o.readers.Values
    ensures o.Valid() && o.Dbs() == Joined(old(o.Dbs()), n)
    ensures unchanged(o.stateManager, o.stateManager.Repr, o.client.service.writer)
  {
    if n.source in o.readers {
      ghost var dbs := o.Dbs();
      GrowLog(o.readers[n.source], n);
      forall source | source in o.readers
        ensures o.readers[source].Valid() && o.AllReplicable(source)
        ensures o.readers[source].db == Joined(dbs, n)[source]
      {
        assert old(o.AllReplicable(source));
        assert source != n.source ==> unchanged(o.readers[source]);
      }
      assert o.Dbs() == Joined(dbs, n);
    }
  }

  method Harvest(o: SyncOrchestrator, news: seq<Arrival>)
    requires o.Valid() && Separate(o.readers)
    requires GoodNews(o.cfg, o.client.service.writer.target, o.Dbs(), news)
    modifies o.readers.Values
    ensures o.Valid() && unchanged(o.stateManager, o.stateManager.Repr)
    ensures o.Whole() == Harvested(old(o.Whole()), news)
  {
    ghost var a := o.Whole();
    for i := 0 to |news|
      invariant o.Valid() && unchanged(o.stateManager, o.stateManager.Repr)
      invariant o.Whole() == Harvested(a, news[..i])
    {
      assert news[..i + 1][..i] == news[..i];
      Grow(o, news[i]);
    }
    assert news[..|news|] == news;
  }

  // One time around: what has arrived, a cycle, and what its result means.
  method RunTick(o: SyncOrchestrator, c: RetryConfig, pollIntervalMs: nat, tick: Tick, consecutiveErrors: nat,
                 waits: seq<int>, done: nat, ghost outcomes: seq<Outcome>)
    returns (end: RunEnd, consecutiveErrors': nat, waits': seq<int>, ghost g: Progressed)
    requires o.Valid() && Separate(o.readers) && GoodChoices(o.cfg, tick.choices)
    requires GoodNews(o.cfg, o.client.service.writer.target, o.Dbs(), tick.news)
    requires LoopAt(c, pollIntervalMs, outcomes, Cancelled, consecutiveErrors, waits) && done == |outcomes|
    modifies o.stateManager.Repr, o.readers.Values, o.client.service.writer
    ensures o.Valid() && fresh(o.stateManager.Repr - old(o.stateManager.Repr))
    ensures g == Cycled(o.cfg, o.client.service.writer.target, Harvested(old(o.Whole()), tick.news), tick.choices)
    ensures o.Whole() == g.at
    ensures LoopAt(c, pollIntervalMs, outcomes + [OutcomeOf(ResultOf(g))], end, consecutiveErrors', waits')
  {
    Harvest(o, tick.news);
    g := Cycled(o.cfg, o.client.service.writer.target, o.Whole(), tick.choices);
    var r := o.SyncCycle(tick.choices);
    end, consecutiveErrors', waits' := AfterCycle(c, pollIntervalMs, r, consecutiveErrors, waits, done, outcomes);
  }

  function CyclesUntil(end: RunEnd, ticks: seq<Tick>): nat {
    if end.GaveUp? then end.at + 1 else |ticks|
  }

  // A run of the loop: as many cycles as it takes to give up, else all there are, and the waits between them.
  ghost predicate LoopRan(cfg: Config, target: Target, a: Assembly, ticks: seq<Tick>, c: RetryConfig,
                          pollIntervalMs: nat, end: RunEnd, waits: seq<int>, a': Assembly)
    requires GoodTicks(cfg, ticks)
  {
    var n := CyclesUntil(end, ticks);
    && n <= |ticks| && a' == LoopTo(cfg, target, a, ticks, n)
    && LoopEnded(c, pollIntervalMs, Outcomes(cfg, target, a, ticks, n), end, waits)
  }

  // Where the loop stands after some times around.
  ghost predicate LoopStands(cfg: Config, target: Target, a: Assembly, ticks: seq<Tick>, n: nat, c: RetryConfig,
                             pollIntervalMs: nat, end: RunEnd, streak: nat, waits: seq<int>, now: Assembly)
    requires n <= |ticks| && GoodTicks(cfg, ticks)
  {
    && now == LoopTo(cfg, target, a, ticks, n) && now.sys.dbs == DatabasesTo(a.sys.dbs, ticks, n)
    && LoopAt(c, pollIntervalMs, Outcomes(cfg, target, a, ticks, n), end, streak, waits)
  }

  lemma LoopStandsNext(cfg: Config, target: Target, a: Assembly, ticks: seq<Tick>, i: nat, n: nat, c: RetryConfig,
                       pollIntervalMs: nat, end: RunEnd, streak: nat, waits: seq<int>, g: Progressed)
    requires n == i + 1 <= |ticks| && GoodTicks(cfg, ticks)
    requires g == Cycled(cfg, target, Harvested(LoopTo(cfg, target, a, ticks, i), ticks[i].news), ticks[i].choices)
    requires LoopAt(c, pollIntervalMs, Outcomes(cfg, target, a, ticks, i) + [OutcomeOf(ResultOf(g))], end, streak,
                    waits)
    ensures LoopStands(cfg, target, a, ticks, n, c, pollIntervalMs, end, streak, waits, g.at)
  {
    OnlyNewsGrowsLogs(cfg, target, a, ticks, n);
    LoopNext(cfg, target, a, ticks, i, n, g);
  }

  lemma LoopStarts(cfg: Config, target: Target, a: Assembly, ticks: seq<Tick>, c: RetryConfig, pollIntervalMs: nat)
    requires GoodTicks(cfg, ticks)
    ensures LoopStands(cfg, target, a, ticks, 0, c, pollIntervalMs, Cancelled, 0, [], a)
  {
  }

  lemma LoopStops(cfg: Config, target: Target, a: Assembly, ticks: seq<Tick>, n: nat, c: RetryConfig,
                  pollIntervalMs: nat, end: RunEnd, streak: nat, waits: seq<int>, now: Assembly)
    requires n <= |ticks| && GoodTicks(cfg, ticks) && (n == |ticks| || end.GaveUp?)
    requires LoopStands(cfg, target, a, ticks, n, c, pollIntervalMs, end, streak, waits, now)
    ensures LoopRan(cfg, target, a, ticks, c, pollIntervalMs, end, waits, now)
  {
  }

  method RunNth(o: SyncOrchestrator, c: RetryConfig, pollIntervalMs: nat, ticks: seq<Tick>, i: nat,
                consecutiveErrors: nat, waits: seq<int>, ghost a: Assembly)
    returns (end: RunEnd, consecutiveErrors': nat, waits': seq<int>)
    requires o.Valid() && Separate(o.readers) && GoodTicks(o.cfg, ticks) && i < |ticks|
    requires AllGoodNews(o.cfg, o.client.service.writer.target, a.sys.dbs, ticks)
    requires LoopStands(o.cfg, o.client.service.writer.target, a, ticks, i, c, pollIntervalMs, Cancelled,
                        consecutiveErrors, waits, o.Whole())
    modifies o.stateManager.Repr, o.readers.Values, o.client.service.writer
    ensures o.Valid() && fresh(o.stateManager.Repr - old(o.stateManager.Repr))
    ensures LoopStands(o.cfg, o.client.service.writer.target, a, ticks, i + 1, c, pollIntervalMs, end,
                       consecutiveErrors', waits', o.Whole())
  {
    ghost var target := o.client.service.writer.target;
    ghost var g;
    end, consecutiveErrors', waits', g := RunTick(o, c, pollIntervalMs, ticks[i], consecutiveErrors, waits, i,
                                                  Outcomes(o.cfg, target, a, ticks, i));
    LoopStandsNext(o.cfg, target, a, ticks, i, i + 1, c, pollIntervalMs, end, consecutiveErrors', waits', g);
  }

  // Cycles until the context is cancelled, which is after as many as there are ticks, or until as many in a row
  // have failed as are allowed.
  method RunLoop(o: SyncOrchestrator, c: RetryConfig, pollIntervalMs: nat, ticks: seq<Tick>)
    returns (end: RunEnd, waits: seq<int>)
    requires o.Valid() && Separate(o.readers) && GoodTicks(o.cfg, ticks)
    requires AllGoodNews(o.cfg, o.client.service.writer.target, o.Dbs(), ticks)
    modifies o.stateManager.Repr, o.readers.Values, o.client.service.writer
    ensures o.Valid() && fresh(o.stateManager.Repr - old(o.stateManager.Repr))
    ensures LoopRan(o.cfg, o.client.service.writer.target, old(o.Whole()), ticks, c, pollIntervalMs, end, waits,
                    o.Whole())
  {
    ghost var a, target := o.Whole(), o.client.service.writer.target;
    var consecutiveErrors: nat, i := 0, 0;
    end, waits := Cancelled, [];
    LoopStarts(o.cfg, target, a, ticks, c, pollIntervalMs);
    while i < |ticks| && end == Cancelled
      invariant i <= |ticks| && o.Valid() && fresh(o.stateManager.Repr - old(o.stateManager.Repr))
      invariant LoopStands(o.cfg, target, a, ticks, i, c, pollIntervalMs, end, consecutiveErrors, waits, o.Whole())
    {
      ghost var repr := o.stateManager.Repr;
      end, consecutiveErrors, waits := RunNth(o, c, pollIntervalMs, ticks, i, consecutiveErrors, waits, a);
      assert fresh(o.stateManager.Repr - repr);
      i := i + 1;
    }
    LoopStops(o.cfg, target, a, ticks, i, c, pollIntervalMs, end, consecutiveErrors, waits, o.Whole());
  }

  // ---------- the loop is a run of the protocol ----------

  function TickEvents(cfg: Config, target: Target, a: Assembly, ticks: seq<Tick>, i: nat): seq<Event>
    requires i < |ticks| && GoodTicks(cfg, ticks)
  {
    Appends(ticks[i].news)
    + EventsOf(cfg, target, Harvested(LoopTo(cfg, target, a, ticks, i), ticks[i].news), ticks[i].choices)
  }

  function LoopEvents(cfg: Config, target: Target, a: Assembly, ticks: seq<Tick>, n: nat): seq<Event>
    requires n <= |ticks| && GoodTicks(cfg, ticks)
  {
    if n == 0 then []
    else LoopEvents(cfg, target, a, ticks, n - 1) + TickEvents(cfg, target, a, ticks, n - 1)
  }

  lemma TickIsRun(cfg: Config, target: Target, a: Assembly, ticks: seq<Tick>, n: nat)
    requires 0 < n <= |ticks| && GoodTicks(cfg, ticks)
    ensures LoopTo(cfg, target, a, ticks, n).sys
            == Run(cfg, LoopTo(cfg, target, a, ticks, n - 1).sys, TickEvents(cfg, target, a, ticks, n - 1))
  {
    var before, tick := LoopTo(cfg, target, a, ticks, n - 1), ticks[n - 1];
    var h := Harvested(before, tick.news);
    ArrivalsAreAppends(cfg, before.sys, tick.news);
    CycleIsRun(cfg, target, h, Plan(cfg.sources, tick.choices), |cfg.sources|);
    RunConcat(cfg, before.sys, Appends(tick.news), EventsOf(cfg, target, h, tick.choices));
  }

  lemma LoopIsRunNext(cfg: Config, target: Target, a: Assembly, ticks: seq<Tick>, n: nat, s1: System, s2: System,
                      evs: seq<Event>, more: seq<Event>)
    requires 0 < n <= |ticks| && GoodTicks(cfg, ticks)
    requires evs == LoopEvents(cfg, target, a, ticks, n - 1) && s1 == Run(cfg, a.sys, evs)
    requires more == TickEvents(cfg, target, a, ticks, n - 1) && s2 == Run(cfg, s1, more)
    ensures s2 == Run(cfg, a.sys, LoopEvents(cfg, target, a, ticks, n))
  {
    RunConcat(cfg, a.sys, evs, more);
  }

  lemma {:induction false} LoopIsRun(cfg: Config, target: Target, a: Assembly, ticks: seq<Tick>, n: nat)
    requires n <= |ticks| && GoodTicks(cfg, ticks)
    ensures LoopTo(cfg, target, a, ticks, n).sys == Run(cfg, a.sys, LoopEvents(cfg, target, a, ticks, n))
    decreases n
  {
    if n > 0 {
      LoopIsRun(cfg, target, a, ticks, n - 1);
      TickIsRun(cfg, target, a, ticks, n);
      LoopIsRunNext(cfg, target, a, ticks, n, LoopTo(cfg, target, a, ticks, n - 1).sys,
                    LoopTo(cfg, target, a, ticks, n).sys, LoopEvents(cfg, target, a, ticks, n - 1),
                    TickEvents(cfg, target, a, ticks, n - 1));
    }
  }

  // So a loop whose events the environment keeps safe, over logs that grow as they may, leaves the tables
  // replayable from both cursors after every cycle.
  lemma LoopKeepsReplay(cfg: Config, target: Target, a: Assembly, ticks: seq<Tick>, n: nat, reach: Reach, initial: DB)
    requires n <= |ticks| && GoodTicks(cfg, ticks) && Inv(cfg, a.sys, reach, initial)
    requires SafeRun(cfg, a.sys, reach, LoopEvents(cfg, target, a, ticks, n))
    ensures var s' := LoopTo(cfg, target, a, ticks, n).sys;
            && Inv(cfg, s', ReachAfter(cfg, a.sys, reach, LoopEvents(cfg, target, a, ticks, n)), initial)
            && Replays(cfg, s'.dbs, s'.mem, s'.target, initial) && Replays(cfg, s'.dbs, s'.disk, s'.target, initial)
  {
    var evs := LoopEvents(cfg, target, a, ticks, n);
    LoopIsRun(cfg, target, a, ticks, n);
    RunKeepsInv(cfg, a.sys, reach, initial, evs);
    BothReplay(cfg, LoopTo(cfg, target, a, ticks, n).sys, ReachAfter(cfg, a.sys, reach, evs), initial);
  }
}
