// Where the main loop leads: over resting logs healthy cycles converge, and fault-free ones are healthy.
module Convergence {
  import opened Common
  import opened Replica
  import opened Protocol
  import opened Invariant
  import opened Progress
  import opened Drain
  import opened Writer
  import opened Retry
  import opened Turns
  import opened Healthy
  import opened Loop

  // The turns of a cycle that comes to its regular end.
  function TurnsDue(cfg: Config, readers: set<string>, tick: Tick): seq<Planned>
    requires GoodChoices(cfg, tick.choices)
  {
    WithReader(Plan(cfg.sources, tick.choices), readers)
  }

  function RoundsOf(cfg: Config, readers: set<string>, ticks: seq<Tick>, n: nat): seq<seq<Visit>>
    requires n <= |ticks| && GoodTicks(cfg, ticks)
  {
    seq(n, i requires 0 <= i < n => VisitsOf(TurnsDue(cfg, readers, ticks[i])))
  }

  // Nothing arrives, and no table's read fails and no first save.
  predicate CalmLoop(cfg: Config, readers: set<string>, ticks: seq<Tick>)
    requires GoodTicks(cfg, ticks)
  {
    forall tick :: tick in ticks ==> tick.news == [] && AllClean(TurnsDue(cfg, readers, tick))
  }

  // Every cycle comes to its regular end.
  predicate Regular(cfg: Config, target: Target, a: Assembly, ticks: seq<Tick>, n: nat)
    requires n <= |ticks| && GoodTicks(cfg, ticks)
  {
    forall i :: 0 <= i < n ==> CycleNo(cfg, target, a, ticks, i).early.None?
  }

  lemma RoundsNext(cfg: Config, readers: set<string>, ticks: seq<Tick>, n: nat)
    requires 0 < n <= |ticks| && GoodTicks(cfg, ticks)
    ensures Rounds(RoundsOf(cfg, readers, ticks, n))
            == Rounds(RoundsOf(cfg, readers, ticks, n - 1)) + Round(VisitsOf(TurnsDue(cfg, readers, ticks[n - 1])))
  {
    assert RoundsOf(cfg, readers, ticks, n)[..n - 1] == RoundsOf(cfg, readers, ticks, n - 1);
  }

  // A calm cycle that comes to its regular end is a round.
  lemma CalmCycleIsRound(cfg: Config, target: Target, a: Assembly, tick: Tick)
    requires GoodChoices(cfg, tick.choices) && tick.news == [] && a.sys.phase.Idle?
    requires AllClean(TurnsDue(cfg, a.sys.dbs.Keys, tick))
    requires Cycled(cfg, target, a, tick.choices).early.None?
    ensures var s' := Cycled(cfg, target, Harvested(a, tick.news), tick.choices).at.sys;
            && s'.phase.Idle? && s'.dbs == a.sys.dbs
            && s' == Run(cfg, a.sys, Round(VisitsOf(TurnsDue(cfg, a.sys.dbs.Keys, tick))))
  {
    var plan := Plan(cfg.sources, tick.choices);
    assert plan[..|plan|] == plan && Harvested(a, tick.news) == a;
    HealthyCycleIsRound(cfg, target, a, plan, |plan|);
    CycleKeepsLogs(cfg, target, a, plan, |plan|);
  }

  // So calm cycles with regular ends are the rounds of the protocol.
  lemma {:induction false} CalmLoopIsRounds(cfg: Config, target: Target, a: Assembly, ticks: seq<Tick>, n: nat)
    requires n <= |ticks| && GoodTicks(cfg, ticks) && a.sys.phase.Idle?
    requires CalmLoop(cfg, a.sys.dbs.Keys, ticks) && Regular(cfg, target, a, ticks, n)
    ensures var s' := LoopTo(cfg, target, a, ticks, n).sys;
            && s'.phase.Idle? && s'.dbs == a.sys.dbs
            && s' == Run(cfg, a.sys, Rounds(RoundsOf(cfg, a.sys.dbs.Keys, ticks, n)))
  {
    if n > 0 {
      var readers, before, tick := a.sys.dbs.Keys, LoopTo(cfg, target, a, ticks, n - 1), ticks[n - 1];
      CalmLoopIsRounds(cfg, target, a, ticks, n - 1);
      assert tick in ticks && Harvested(before, tick.news) == before;
      assert CycleNo(cfg, target, a, ticks, n - 1).early.None?;
      CalmCycleIsRound(cfg, target, before, tick);
      RoundsNext(cfg, readers, ticks, n);
      RunConcat(cfg, a.sys, Rounds(RoundsOf(cfg, readers, ticks, n - 1)),
                Round(VisitsOf(TurnsDue(cfg, readers, tick))));
    }
  }

  lemma RoundsAreFull(cfg: Config, dbs: Databases, ticks: seq<Tick>)
    requires GoodTicks(cfg, ticks) && forall source :: source in dbs ==> source in cfg.sources
    ensures forall visits :: visits in RoundsOf(cfg, dbs.Keys, ticks, |ticks|) ==> FullRound(dbs, visits)
  {
    forall i | 0 <= i < |ticks|
      ensures FullRound(dbs, VisitsOf(TurnsDue(cfg, dbs.Keys, ticks[i])))
    {
      assert ticks[i] in ticks;
      CycleIsFull(cfg, dbs, ticks[i].choices);
    }
  }

  // Convergence of the loop. From any state that satisfies the invariant, with every source's first batch
  // acknowledged, as many calm cycles as the longest remainder has rows leave the target holding exactly the
  // replicated tables, if they come to their regular ends and the polls they make are closed.
  lemma HealthyLoopConverges(cfg: Config, target: Target, a: Assembly, reach: Reach, initial: DB, ticks: seq<Tick>)
    requires Inv(cfg, a.sys, reach, initial) && ReadyToDrain(a.sys) && cfg.batchSize > 0 && GoodTicks(cfg, ticks)
    requires CalmLoop(cfg, a.sys.dbs.Keys, ticks) && Regular(cfg, target, a, ticks, |ticks|)
    requires SafeRun(cfg, a.sys, reach, Rounds(RoundsOf(cfg, a.sys.dbs.Keys, ticks, |ticks|)))
    requires forall source :: source in a.sys.dbs ==> Remaining(a.sys, source) <= |ticks|
    ensures var s' := LoopTo(cfg, target, a, ticks, |ticks|).sys;
            s'.dbs == a.sys.dbs && s'.target == Replicated(cfg, a.sys.dbs, initial)
  {
    CalmLoopIsRounds(cfg, target, a, ticks, |ticks|);
    RoundsAreFull(cfg, a.sys.dbs, ticks);
    Converges(cfg, a.sys, reach, initial, RoundsOf(cfg, a.sys.dbs.Keys, ticks, |ticks|));
  }

  // In particular if every poll from the cursors on is closed.
  lemma ClosedLoopConverges(cfg: Config, target: Target, a: Assembly, reach: Reach, initial: DB, ticks: seq<Tick>)
    requires Inv(cfg, a.sys, reach, initial) && ReadyToDrain(a.sys) && cfg.batchSize > 0 && GoodTicks(cfg, ticks)
    requires CalmLoop(cfg, a.sys.dbs.Keys, ticks) && Regular(cfg, target, a, ticks, |ticks|)
    requires AllClosed(cfg, a.sys)
    requires forall source :: source in a.sys.dbs ==> Remaining(a.sys, source) <= |ticks|
    ensures var s' := LoopTo(cfg, target, a, ticks, |ticks|).sys;
            s'.dbs == a.sys.dbs && s'.target == Replicated(cfg, a.sys.dbs, initial)
  {
    RoundsAreFull(cfg, a.sys.dbs, ticks);
    RoundsAreSafe(cfg, a.sys, reach, RoundsOf(cfg, a.sys.dbs.Keys, ticks, |ticks|));
    HealthyLoopConverges(cfg, target, a, reach, initial, ticks);
  }

  // ---------- from what the environment does ----------

  // Nothing arrives, and nothing goes wrong around any source.
  predicate FaultFreeLoop(cfg: Config, readers: set<string>, ticks: seq<Tick>)
    requires GoodTicks(cfg, ticks)
  {
    forall tick :: tick in ticks ==> tick.news == [] && AllFaultFree(TurnsDue(cfg, readers, tick))
  }

  lemma FaultFreeNth(cfg: Config, target: Target, a: Assembly, before: Assembly, ticks: seq<Tick>, n: nat,
                     truth: (string, string) -> seq<string>, schemas: set<string>)
    requires 0 < n <= |ticks| && GoodTicks(cfg, ticks) && FaultFreeLoop(cfg, a.sys.dbs.Keys, ticks)
    requires before.sys == Run(cfg, a.sys, Rounds(RoundsOf(cfg, a.sys.dbs.Keys, ticks, n - 1)))
    requires before.sys.dbs == a.sys.dbs
    requires Receptive(target, before, truth, schemas) && Suited(cfg, target, a.sys.dbs, truth, schemas)
    requires ConstraintsHold(cfg, target, a.sys, Rounds(RoundsOf(cfg, a.sys.dbs.Keys, ticks, n)))
    ensures var g := Cycled(cfg, target, Harvested(before, ticks[n - 1].news), ticks[n - 1].choices);
            g.early.None? && Receptive(target, g.at, truth, schemas)
  {
    var readers, tick := a.sys.dbs.Keys, ticks[n - 1];
    var plan := Plan(cfg.sources, tick.choices);
    assert tick in ticks && plan[..|plan|] == plan && Harvested(before, tick.news) == before;
    RoundsNext(cfg, readers, ticks, n);
    ConstraintsSplit(cfg, target, a.sys, Rounds(RoundsOf(cfg, readers, ticks, n - 1)),
                     Round(VisitsOf(TurnsDue(cfg, readers, tick))));
    FaultFreeCycle(cfg, target, before, plan, |plan|, truth, schemas);
  }

  lemma FewerRoundsHold(cfg: Config, target: Target, s: System, readers: set<string>, ticks: seq<Tick>, n: nat)
    requires 0 < n <= |ticks| && GoodTicks(cfg, ticks)
    requires ConstraintsHold(cfg, target, s, Rounds(RoundsOf(cfg, readers, ticks, n)))
    ensures ConstraintsHold(cfg, target, s, Rounds(RoundsOf(cfg, readers, ticks, n - 1)))
  {
    RoundsNext(cfg, readers, ticks, n);
    ConstraintsSplit(cfg, target, s, Rounds(RoundsOf(cfg, readers, ticks, n - 1)),
                     Round(VisitsOf(TurnsDue(cfg, readers, ticks[n - 1]))));
  }

  lemma FaultFreeIsCalm(cfg: Config, readers: set<string>, ticks: seq<Tick>)
    requires GoodTicks(cfg, ticks) && FaultFreeLoop(cfg, readers, ticks)
    ensures CalmLoop(cfg, readers, ticks)
  {
  }

  lemma RegularNext(cfg: Config, target: Target, a: Assembly, ticks: seq<Tick>, n: nat, g: Progressed)
    requires 0 < n <= |ticks| && GoodTicks(cfg, ticks) && Regular(cfg, target, a, ticks, n - 1) && g.early.None?
    requires g == CycleNo(cfg, target, a, ticks, n - 1)
    ensures Regular(cfg, target, a, ticks, n) && LoopTo(cfg, target, a, ticks, n) == g.at
  {
  }

  // Every cycle of a fault-free loop comes to its regular end if the constraints hold all along its rounds.
  lemma {:induction false} FaultFreeLoopIsRegular(cfg: Config, target: Target, a: Assembly, ticks: seq<Tick>, n: nat,
                                                  truth: (string, string) -> seq<string>, schemas: set<string>)
    requires n <= |ticks| && GoodTicks(cfg, ticks) && FaultFreeLoop(cfg, a.sys.dbs.Keys, ticks)
    requires Receptive(target, a, truth, schemas) && Suited(cfg, target, a.sys.dbs, truth, schemas)
    requires ConstraintsHold(cfg, target, a.sys, Rounds(RoundsOf(cfg, a.sys.dbs.Keys, ticks, n)))
    ensures Regular(cfg, target, a, ticks, n) && Receptive(target, LoopTo(cfg, target, a, ticks, n), truth, schemas)
  {
    if n > 0 {
      FewerRoundsHold(cfg, target, a.sys, a.sys.dbs.Keys, ticks, n);
      FaultFreeLoopIsRegular(cfg, target, a, ticks, n - 1, truth, schemas);
      FaultFreeIsCalm(cfg, a.sys.dbs.Keys, ticks);
      CalmLoopIsRounds(cfg, target, a, ticks, n - 1);
      FaultFreeNth(cfg, target, a, LoopTo(cfg, target, a, ticks, n - 1), ticks, n, truth, schemas);
      RegularNext(cfg, target, a, ticks, n, CycleNo(cfg, target, a, ticks, n - 1));
    }
  }

  // A loop whose cycles all come to their regular ends never fails, so it goes on until it is cancelled.
  lemma {:induction false} RegularSucceeds(cfg: Config, target: Target, a: Assembly, ticks: seq<Tick>, n: nat)
    requires n <= |ticks| && GoodTicks(cfg, ticks) && Regular(cfg, target, a, ticks, n)
    ensures forall i :: 0 <= i < n ==> Outcomes(cfg, target, a, ticks, n)[i].Succeeded?
  {
    if n > 0 {
      RegularSucceeds(cfg, target, a, ticks, n - 1);
      assert CycleNo(cfg, target, a, ticks, n - 1).early.None?;
    }
  }

  lemma RegularIsCancelled(cfg: Config, target: Target, a: Assembly, ticks: seq<Tick>, c: RetryConfig,
                           pollIntervalMs: nat, end: RunEnd, waits: seq<int>, a': Assembly)
    requires GoodTicks(cfg, ticks) && Regular(cfg, target, a, ticks, |ticks|)
    requires LoopRan(cfg, target, a, ticks, c, pollIntervalMs, end, waits, a')
    ensures end == Cancelled && a' == LoopTo(cfg, target, a, ticks, |ticks|)
  {
    RegularSucceeds(cfg, target, a, ticks, CyclesUntil(end, ticks));
  }

  // Convergence from the inputs of the loop: what its environment does, the rows in the logs and the target.
  lemma FaultFreeLoopConverges(cfg: Config, target: Target, a: Assembly, reach: Reach, initial: DB, ticks: seq<Tick>,
                               truth: (string, string) -> seq<string>, schemas: set<string>, c: RetryConfig,
                               pollIntervalMs: nat, end: RunEnd, waits: seq<int>, a': Assembly)
    requires Inv(cfg, a.sys, reach, initial) && ReadyToDrain(a.sys) && cfg.batchSize > 0
    requires GoodTicks(cfg, ticks) && FaultFreeLoop(cfg, a.sys.dbs.Keys, ticks)
    requires Receptive(target, a, truth, schemas) && Suited(cfg, target, a.sys.dbs, truth, schemas)
    requires var evs := Rounds(RoundsOf(cfg, a.sys.dbs.Keys, ticks, |ticks|));
             SafeRun(cfg, a.sys, reach, evs) && ConstraintsHold(cfg, target, a.sys, evs)
    requires forall source :: source in a.sys.dbs ==> Remaining(a.sys, source) <= |ticks|
    requires LoopRan(cfg, target, a, ticks, c, pollIntervalMs, end, waits, a')
    ensures end == Cancelled && a'.sys.target == Replicated(cfg, a.sys.dbs, initial)
  {
    FaultFreeLoopIsRegular(cfg, target, a, ticks, |ticks|, truth, schemas);
    FaultFreeIsCalm(cfg, a.sys.dbs.Keys, ticks);
    RegularIsCancelled(cfg, target, a, ticks, c, pollIntervalMs, end, waits, a');
    HealthyLoopConverges(cfg, target, a, reach, initial, ticks);
  }

  // ---------- after any history ----------

  // The target's tables fit the captured ones however the logs grow.
  ghost predicate AlwaysSuited(cfg: Config, target: Target, dbs: Databases, ticks: seq<Tick>,
                               truth: (string, string) -> seq<string>, schemas: set<string>) {
    forall i :: 0 <= i <= |ticks| ==> Suited(cfg, target, DatabasesTo(dbs, ticks, i), truth, schemas)
  }

  lemma {:induction false} LoopStaysReceptive(cfg: Config, target: Target, a: Assembly, ticks: seq<Tick>, n: nat,
                                              truth: (string, string) -> seq<string>, schemas: set<string>)
    requires n <= |ticks| && GoodTicks(cfg, ticks)
    requires Receptive(target, a, truth, schemas) && AlwaysSuited(cfg, target, a.sys.dbs, ticks, truth, schemas)
    ensures Receptive(target, LoopTo(cfg, target, a, ticks, n), truth, schemas)
  {
    if n > 0 {
      LoopStaysReceptive(cfg, target, a, ticks, n - 1, truth, schemas);
      OnlyNewsGrowsLogs(cfg, target, a, ticks, n - 1);
      var h := Harvested(LoopTo(cfg, target, a, ticks, n - 1), ticks[n - 1].news);
      assert h.sys.dbs == DatabasesTo(a.sys.dbs, ticks, n);
      CycleStaysReceptive(cfg, target, h, Plan(cfg.sources, ticks[n - 1].choices), |cfg.sources|, truth, schemas);
    }
  }

  // The client as it is started for the first time, before a server that has learned nothing yet.
  ghost predicate FreshStart(cfg: Config, target: Target, a: Assembly, initial: DB, schemas: set<string>) {
    Initial(cfg, a.sys, initial) && a.cache == map[] && KeyedDb(target, initial) && NoneExtends(schemas)
  }

  // What a history, however faulty but safe, leaves behind: everything that convergence asks of the state.
  lemma HistoryIsRecoverable(cfg: Config, target: Target, a: Assembly, initial: DB, history: seq<Tick>,
                             truth: (string, string) -> seq<string>, schemas: set<string>)
    requires FreshStart(cfg, target, a, initial, schemas) && GoodTicks(cfg, history)
    requires SafeRun(cfg, a.sys, map[], LoopEvents(cfg, target, a, history, |history|))
    requires AlwaysSuited(cfg, target, a.sys.dbs, history, truth, schemas)
    ensures var b := LoopTo(cfg, target, a, history, |history|);
            var reach := ReachAfter(cfg, a.sys, map[], LoopEvents(cfg, target, a, history, |history|));
            && Inv(cfg, b.sys, reach, initial) && Receptive(target, b, truth, schemas)
            && Suited(cfg, target, b.sys.dbs, truth, schemas)
            && ((forall source :: source in b.sys.dbs ==> HasAck(b.sys.mem, source)) ==> ReadyToDrain(b.sys))
  {
    InvAtStart(cfg, a.sys, initial);
    LoopKeepsReplay(cfg, target, a, history, |history|, map[], initial);
    LoopStaysReceptive(cfg, target, a, history, |history|, truth, schemas);
    OnlyNewsGrowsLogs(cfg, target, a, history, |history|);
  }

  // End to end: a client that starts fresh, runs for any time over growing logs with faults of every kind, as long
  // as they are safe, and then for as many fault-free cycles as rows remain, ends with the replicated tables.
  lemma ConvergesAfterHistory(cfg: Config, target: Target, a: Assembly, initial: DB, history: seq<Tick>,
                              ticks: seq<Tick>, truth: (string, string) -> seq<string>, schemas: set<string>,
                              c: RetryConfig, pollIntervalMs: nat, end: RunEnd, waits: seq<int>, a': Assembly)
    requires FreshStart(cfg, target, a, initial, schemas) && GoodTicks(cfg, history) && GoodTicks(cfg, ticks)
    requires SafeRun(cfg, a.sys, map[], LoopEvents(cfg, target, a, history, |history|)) && cfg.batchSize > 0
    requires AlwaysSuited(cfg, target, a.sys.dbs, history, truth, schemas)
    requires var b := LoopTo(cfg, target, a, history, |history|);
             var reach := ReachAfter(cfg, a.sys, map[], LoopEvents(cfg, target, a, history, |history|));
             var evs := Rounds(RoundsOf(cfg, b.sys.dbs.Keys, ticks, |ticks|));
             && FaultFreeLoop(cfg, b.sys.dbs.Keys, ticks) && SafeRun(cfg, b.sys, reach, evs)
             && ConstraintsHold(cfg, target, b.sys, evs)
             && (forall source :: source in b.sys.dbs
                                  ==> HasAck(b.sys.mem, source) && Remaining(b.sys, source) <= |ticks|)
             && LoopRan(cfg, target, b, ticks, c, pollIntervalMs, end, waits, a')
    ensures end == Cancelled
    ensures a'.sys.target == Replicated(cfg, LoopTo(cfg, target, a, history, |history|).sys.dbs, initial)
  {
    var b := LoopTo(cfg, target, a, history, |history|);
    var reach := ReachAfter(cfg, a.sys, map[], LoopEvents(cfg, target, a, history, |history|));
    HistoryIsRecoverable(cfg, target, a, initial, history, truth, schemas);
    FaultFreeLoopConverges(cfg, target, b, reach, initial, ticks, truth, schemas, c, pollIntervalMs, end, waits, a');
  }
}
