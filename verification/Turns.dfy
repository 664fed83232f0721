// What a sync cycle comes to: the turns of its sources as a function of what the environment chooses, and as runs
// of the protocol.
module Turns {
  import opened Common
  import opened Lsn
  import opened Sequences
  import opened Replica
  import opened Source
  import opened Changes
  import opened Cursors
  import opened Protocol
  import opened Invariant
  import opened Safety
  import opened Progress
  import opened Drain
  import opened Writer
  import opened Server
  import opened Client
  import opened Reader
  import opened Filtering

  // What the environment decides about one source in one cycle: whether polling fails, which tables fail to
  // be read, the identifier drawn for the batch, whether the first state save works, how the exchange goes,
  // how applying goes wrong, and whether the save after the acknowledgment works.
  datatype Choice = Choice(pollFails: bool, faults: seq<ReadFault>, batchId: string, saved: bool,
                           net: Net, trouble: Trouble, ackSaved: bool)

  // How the cycle goes on after a source: with the next one, or it ends well, or with an error.
  datatype Verdict = Proceed(rows: nat) | Stop | Fail

  type KeyCache = map<string, seq<string>>

  // The whole assembled system: the protocol's state and what the server has cached.
  datatype Assembly = Assembly(sys: System, cache: KeyCache)

  // ---------- one source's turn ----------

  // Whether polling a source leads to a batch being sent.
  predicate Sends(cfg: Config, source: string, caps: seq<Capture>, r: PollResult, ch: Choice) {
    Tracked(cfg, source, caps, r.entries) != [] && ch.saved
  }

  function PollEvent(source: string, ch: Choice): Event {
    PollSource(source, ch.faults, ch.batchId, ch.saved)
  }

  // How a turn ends that sends nothing.
  function PollVerdict(cfg: Config, s: System, source: string, ch: Choice): Option<Verdict>
    requires source in s.dbs
  {
    var p := PollOf(cfg, s, source, ch.faults);
    if Sends(cfg, source, s.dbs[source].captures, p, ch) then None
    else Some(if ch.saved || (p.entries == [] && p.maxLsn == []) then Proceed(0) else Fail)
  }

  // The batch a turn sends, if it sends one.
  function BatchFor(cfg: Config, s: System, source: string, ch: Choice): seq<Change>
    requires source in s.dbs
  {
    var caps, p := s.dbs[source].captures, PollOf(cfg, s, source, ch.faults);
    if Within(caps, p.entries) then Batch(cfg, source, caps, p.entries, ch.batchId) else []
  }

  // What applying it does.
  function Applying(cfg: Config, target: Target, a: Assembly, source: string, ch: Choice): Applied
    requires source in a.sys.dbs
  {
    ApplyAll(target, a.cache, BatchFor(cfg, a.sys, source, ch), true, ch.trouble.failAt, a.sys.target)
  }

  // The protocol events of an exchange whose batch the server did or did not commit.
  function DeliveryEvents(ch: Choice, committed: bool): seq<Event> {
    if !committed then [Reject]
    else [Commit, if ch.net.Completes? && ch.net.answered then AckArrives(ch.ackSaved) else AckLost]
  }

  // The server commits what it receives completely and can apply.
  predicate Commits(net: Net, applied: Applied) {
    net.Completes? && applied.result.Ok?
  }

  // An unanswered exchange, a save that fails and a rejection are errors; a requested retry is not.
  function DeliveryVerdict(ch: Choice, applied: Applied): Verdict {
    if !(ch.net.Completes? && ch.net.answered) then Fail
    else if applied.result.Ok? then if ch.ackSaved then Proceed(applied.result.value.1) else Fail
    else if ch.trouble.category == AckRetry then Stop
    else Fail
  }

  function TurnEvents(cfg: Config, target: Target, a: Assembly, source: string, ch: Choice): seq<Event>
    requires source in a.sys.dbs
  {
    if ch.pollFails then []
    else if PollVerdict(cfg, a.sys, source, ch).Some? then [PollEvent(source, ch)]
    else [PollEvent(source, ch)] + DeliveryEvents(ch, Commits(ch.net, Applying(cfg, target, a, source, ch)))
  }

  function TurnVerdict(cfg: Config, target: Target, a: Assembly, source: string, ch: Choice): Verdict
    requires source in a.sys.dbs
  {
    if ch.pollFails then Fail
    else
      match PollVerdict(cfg, a.sys, source, ch)
      case Some(v) => v
      case None => DeliveryVerdict(ch, Applying(cfg, target, a, source, ch))
  }

  function TurnCache(cfg: Config, target: Target, a: Assembly, source: string, ch: Choice): KeyCache
    requires source in a.sys.dbs
  {
    if ch.pollFails || PollVerdict(cfg, a.sys, source, ch).Some? || !ch.net.Completes? then a.cache
    else Applying(cfg, target, a, source, ch).cache
  }

  function AfterTurn(cfg: Config, target: Target, a: Assembly, source: string, ch: Choice): Assembly
    requires source in a.sys.dbs
  {
    Assembly(Run(cfg, a.sys, TurnEvents(cfg, target, a, source, ch)), TurnCache(cfg, target, a, source, ch))
  }

  // ---------- a cycle ----------

  // What a cycle has before it: every configured source, with what the environment chooses for it.
  datatype Planned = Planned(source: string, ch: Choice)

  function Plan(sources: seq<string>, choices: seq<Choice>): seq<Planned>
    requires |sources| == |choices|
  {
    seq(|sources|, i requires 0 <= i < |sources| => Planned(sources[i], choices[i]))
  }

  // One source's turn in a cycle: where it began, and what the environment chose.
  datatype Turn = Turn(before: Assembly, source: string, ch: Choice)

  predicate Taken(turn: Turn) {
    turn.source in turn.before.sys.dbs
  }

  function VerdictOf(cfg: Config, target: Target, turn: Turn): Verdict
    requires Taken(turn)
  {
    TurnVerdict(cfg, target, turn.before, turn.source, turn.ch)
  }

  // How far a cycle has come: the state, the turns so far, and how it ended if it did so early.
  datatype Progressed = Progressed(at: Assembly, turns: seq<Turn>, total: nat, early: Option<Result<nat, ()>>)

  function Ended(v: Verdict, total: nat): Result<nat, ()> {
    if v == Stop then Ok(total) else Err(())
  }

  // The sources take their turns in order; one without a reader is passed over, and a turn that does not proceed
  // ends the cycle.
  function CycleTo(cfg: Config, target: Target, a: Assembly, plan: seq<Planned>, k: nat): Progressed
    requires k <= |plan|
  {
    if k == 0 then Progressed(a, [], 0, None)
    else NextTurn(cfg, target, CycleTo(cfg, target, a, plan, k - 1), plan[k - 1])
  }

  function NextTurn(cfg: Config, target: Target, g: Progressed, next: Planned): Progressed {
    if g.early.Some? || next.source !in g.at.sys.dbs then g
    else
      var v := TurnVerdict(cfg, target, g.at, next.source, next.ch);
      Progressed(AfterTurn(cfg, target, g.at, next.source, next.ch), g.turns + [Turn(g.at, next.source, next.ch)],
                 g.total + (if v.Proceed? then v.rows else 0),
                 if v.Proceed? then None else Some(Ended(v, g.total)))
  }

  function Cycled(cfg: Config, target: Target, a: Assembly, choices: seq<Choice>): Progressed
    requires |choices| == |cfg.sources|
  {
    CycleTo(cfg, target, a, Plan(cfg.sources, choices), |cfg.sources|)
  }

  function ResultOf(g: Progressed): Result<nat, ()> {
    if g.early.Some? then g.early.value else Ok(g.total)
  }

  function Handled(turns: seq<Turn>): seq<Planned> {
    seq(|turns|, i requires 0 <= i < |turns| => Planned(turns[i].source, turns[i].ch))
  }

  // The sources that have a reader.
  function WithReader(plan: seq<Planned>, readers: set<string>): seq<Planned> {
    Filter((p: Planned) => p.source in readers, plan)
  }

  lemma WithReaderNext(plan: seq<Planned>, k: nat, readers: set<string>)
    requires k < |plan|
    ensures WithReader(plan[..k + 1], readers)
            == if plan[k].source in readers then WithReader(plan[..k], readers) + [plan[k]]
               else WithReader(plan[..k], readers)
  {
    var f := (p: Planned) => p.source in readers;
    assert plan[..k + 1] == plan[..k] + [plan[k]] && [plan[k]][1..] == [];
    FilterConcat(f, plan[..k], [plan[k]]);
  }

  // A cycle that ended early stays where it ended.
  lemma {:induction false} EarlyEnd(cfg: Config, target: Target, a: Assembly, plan: seq<Planned>, k: nat)
    requires k <= |plan| && CycleTo(cfg, target, a, plan, k).early.Some?
    ensures CycleTo(cfg, target, a, plan, |plan|) == CycleTo(cfg, target, a, plan, k)
    decreases |plan| - k
  {
    if k < |plan| {
      EarlyEnd(cfg, target, a, plan, k + 1);
    }
  }

  lemma OneMoreTurn(cfg: Config, target: Target, a: Assembly, plan: seq<Planned>, k: nat, g: Progressed, g': Progressed)
    requires k < |plan| && g == CycleTo(cfg, target, a, plan, k) && g' == NextTurn(cfg, target, g, plan[k])
    ensures g' == CycleTo(cfg, target, a, plan, k + 1)
    ensures g'.early.Some? ==> g' == CycleTo(cfg, target, a, plan, |plan|)
  {
    if g'.early.Some? { EarlyEnd(cfg, target, a, plan, k + 1); }
  }

  // What an acknowledgment says of a batch.
  predicate Answers(ack: Ack, applied: Applied, lsn: Lsn, ch: Choice) {
    && ack.lsn == lsn && ack.status == (if applied.result.Ok? then AckOk else ch.trouble.category)
    && (applied.result.Ok? ==> ack.rowsProcessed == applied.result.value.1)
  }

  predicate Proceeded(cfg: Config, target: Target, turn: Turn) {
    Taken(turn) && VerdictOf(cfg, target, turn).Proceed?
  }

  // The turns of a cycle: those of the sources with a reader, in order and with their own choices. All proceed
  // unless the cycle ends early, which is with the first that does not; it fails exactly if that turn failed.
  predicate CycleShape(cfg: Config, target: Target, g: Progressed, plan: seq<Planned>, readers: set<string>) {
    if g.early.None? then
      && Handled(g.turns) == WithReader(plan, readers)
      && (forall turn :: turn in g.turns ==> Proceeded(cfg, target, turn))
    else
      && Handled(g.turns) <= WithReader(plan, readers) && g.turns != []
      && (forall turn :: turn in g.turns[..|g.turns| - 1] ==> Proceeded(cfg, target, turn))
      && var last := g.turns[|g.turns| - 1];
      && Taken(last) && !VerdictOf(cfg, target, last).Proceed?
      && (g.early.value.Err? <==> VerdictOf(cfg, target, last) == Fail)
  }

  lemma ShapeAfter(cfg: Config, target: Target, g: Progressed, g': Progressed, turn: Turn, plan: seq<Planned>, k: nat,
                   readers: set<string>, v: Verdict)
    requires k < |plan| && CycleShape(cfg, target, g, plan[..k], readers) && g.early.None?
    requires Taken(turn) && v == VerdictOf(cfg, target, turn) && Planned(turn.source, turn.ch) == plan[k]
    requires turn.source in readers && g'.turns == g.turns + [turn]
    requires g'.early == if v.Proceed? then None else Some(Ended(v, g.total))
    ensures CycleShape(cfg, target, g', plan[..k + 1], readers)
  {
    WithReaderNext(plan, k, readers);
    assert Handled(g'.turns) == Handled(g.turns) + [plan[k]];
    assert g'.turns[..|g'.turns| - 1] == g.turns;
  }

  lemma ShapeNext(cfg: Config, target: Target, g: Progressed, plan: seq<Planned>, k: nat, readers: set<string>)
    requires k < |plan| && CycleShape(cfg, target, g, plan[..k], readers) && g.at.sys.dbs.Keys == readers
    ensures CycleShape(cfg, target, NextTurn(cfg, target, g, plan[k]), plan[..k + 1], readers)
  {
    var next := plan[k];
    if g.early.None? && next.source in readers {
      var turn := Turn(g.at, next.source, next.ch);
      ShapeAfter(cfg, target, g, NextTurn(cfg, target, g, next), turn, plan, k, readers, VerdictOf(cfg, target, turn));
    } else {
      WithReaderNext(plan, k, readers);
    }
  }

  lemma {:induction false} RunKeepsLogs(cfg: Config, s: System, evs: seq<Event>)
    requires forall ev :: ev in evs ==> !ev.Append?
    ensures Run(cfg, s, evs).dbs == s.dbs
    decreases evs
  {
    if evs != [] {
      OnlyAppendTouchesDatabases(cfg, s, evs[0]);
      RunKeepsLogs(cfg, Step(cfg, s, evs[0]), evs[1..]);
    }
  }

  // A turn leaves the logs alone.
  lemma TurnKeepsLogs(cfg: Config, target: Target, a: Assembly, source: string, ch: Choice)
    requires source in a.sys.dbs
    ensures AfterTurn(cfg, target, a, source, ch).sys.dbs == a.sys.dbs
  {
    RunKeepsLogs(cfg, a.sys, TurnEvents(cfg, target, a, source, ch));
  }

  lemma NextKeepsLogs(cfg: Config, target: Target, g: Progressed, next: Planned)
    ensures NextTurn(cfg, target, g, next).at.sys.dbs == g.at.sys.dbs
  {
    if g.early.None? && next.source in g.at.sys.dbs { TurnKeepsLogs(cfg, target, g.at, next.source, next.ch); }
  }

  lemma {:induction false} CycleKeepsLogs(cfg: Config, target: Target, a: Assembly, plan: seq<Planned>, k: nat)
    requires k <= |plan|
    ensures CycleTo(cfg, target, a, plan, k).at.sys.dbs == a.sys.dbs
  {
    if k > 0 {
      CycleKeepsLogs(cfg, target, a, plan, k - 1);
      NextKeepsLogs(cfg, target, CycleTo(cfg, target, a, plan, k - 1), plan[k - 1]);
    }
  }

  lemma ShapeStart(cfg: Config, target: Target, a: Assembly, plan: seq<Planned>, readers: set<string>)
    ensures CycleShape(cfg, target, CycleTo(cfg, target, a, plan, 0), plan[..0], readers)
  {
    assert plan[..0] == [];
  }

  lemma ShapeTo(cfg: Config, target: Target, a: Assembly, plan: seq<Planned>, k: nat, readers: set<string>)
    requires 0 < k <= |plan| && readers == a.sys.dbs.Keys
    requires CycleShape(cfg, target, CycleTo(cfg, target, a, plan, k - 1), plan[..k - 1], readers)
    ensures CycleShape(cfg, target, CycleTo(cfg, target, a, plan, k), plan[..k], readers)
  {
    CycleKeepsLogs(cfg, target, a, plan, k - 1);
    ShapeNext(cfg, target, CycleTo(cfg, target, a, plan, k - 1), plan, k - 1, readers);
  }

  lemma {:induction false} CycleTakesTurns(cfg: Config, target: Target, a: Assembly, plan: seq<Planned>, k: nat)
    requires k <= |plan|
    ensures CycleShape(cfg, target, CycleTo(cfg, target, a, plan, k), plan[..k], a.sys.dbs.Keys)
    decreases k
  {
    if k == 0 {
      ShapeStart(cfg, target, a, plan, a.sys.dbs.Keys);
    } else {
      CycleTakesTurns(cfg, target, a, plan, k - 1);
      ShapeTo(cfg, target, a, plan, k, a.sys.dbs.Keys);
    }
  }

  // ---------- what a cycle returns ----------

  // The tracked rows a turn's poll returns.
  function TurnRows(cfg: Config, turn: Turn): seq<Entry>
    requires Taken(turn)
  {
    var s := turn.before.sys;
    Tracked(cfg, turn.source, s.dbs[turn.source].captures, PollOf(cfg, s, turn.source, turn.ch.faults).entries)
  }

  // What the server makes of the batch a turn sends.
  function TurnApplied(cfg: Config, target: Target, turn: Turn): Applied
    requires Taken(turn)
  {
    Applying(cfg, target, turn.before, turn.source, turn.ch)
  }

  // A turn goes well if polling, the save that moves or records the cursor and, if there is a batch, the exchange,
  // its transaction and the save after the acknowledgment all work.
  predicate GoesWell(cfg: Config, target: Target, turn: Turn)
    requires Taken(turn)
  {
    var ch, p := turn.ch, PollOf(cfg, turn.before.sys, turn.source, turn.ch.faults);
    && !ch.pollFails && (ch.saved || (p.entries == [] && p.maxLsn == []))
    && (TurnRows(cfg, turn) != [] ==>
          ch.net == Completes(true) && TurnApplied(cfg, target, turn).result.Ok? && ch.ackSaved)
  }

  // The server answers that it failed and asks for a retry.
  predicate RetryAsked(cfg: Config, target: Target, turn: Turn)
    requires Taken(turn)
  {
    && !turn.ch.pollFails && turn.ch.saved && TurnRows(cfg, turn) != [] && turn.ch.net == Completes(true)
    && TurnApplied(cfg, target, turn).result.Err? && turn.ch.trouble.category == AckRetry
  }

  // The rows a turn's acknowledgment reports: those the transaction of its batch affected.
  function RowsReported(cfg: Config, target: Target, turn: Turn): nat
    requires Taken(turn)
  {
    if GoesWell(cfg, target, turn) && TurnRows(cfg, turn) != [] then TurnApplied(cfg, target, turn).result.value.1
    else 0
  }

  lemma TurnEndsIff(cfg: Config, target: Target, turn: Turn)
    requires Taken(turn)
    ensures var v := VerdictOf(cfg, target, turn);
            && (v.Proceed? <==> GoesWell(cfg, target, turn))
            && (v.Proceed? ==> v.rows == RowsReported(cfg, target, turn))
            && (v.Stop? <==> RetryAsked(cfg, target, turn))
  {
  }

  function RowsTotal(cfg: Config, target: Target, turns: seq<Turn>): nat
    requires forall turn :: turn in turns ==> Taken(turn)
  {
    if turns == [] then 0
    else
      var init, last := turns[..|turns| - 1], turns[|turns| - 1];
      assert last in turns;
      RowsTotal(cfg, target, init) + RowsReported(cfg, target, last)
  }

  predicate AllGoWell(cfg: Config, target: Target, turns: seq<Turn>) {
    forall turn :: turn in turns ==> Taken(turn) && GoesWell(cfg, target, turn)
  }

  // A cycle whose turns all go well returns the sum of the rows their acknowledgments reported; one that ends with a
  // requested retry the sum over the turns before it; any other an error.
  predicate CycleReturns(cfg: Config, target: Target, turns: seq<Turn>, r: Result<nat, ()>) {
    if AllGoWell(cfg, target, turns) then r == Ok(RowsTotal(cfg, target, turns))
    else
      var init, last := turns[..|turns| - 1], turns[|turns| - 1];
      && AllGoWell(cfg, target, init) && Taken(last)
      && r == if RetryAsked(cfg, target, last) then Ok(RowsTotal(cfg, target, init)) else Err(())
  }

  // How far a cycle has come, told from its turns.
  predicate Accounted(cfg: Config, target: Target, g: Progressed) {
    if g.early.None? then AllGoWell(cfg, target, g.turns) && g.total == RowsTotal(cfg, target, g.turns)
    else
      && g.turns != []
      && var init, last := g.turns[..|g.turns| - 1], g.turns[|g.turns| - 1];
      && AllGoWell(cfg, target, init) && Taken(last) && !GoesWell(cfg, target, last)
      && g.early.value == if RetryAsked(cfg, target, last) then Ok(RowsTotal(cfg, target, init)) else Err(())
  }

  lemma WellNext(cfg: Config, target: Target, turns: seq<Turn>, turn: Turn)
    requires AllGoWell(cfg, target, turns) && Taken(turn) && GoesWell(cfg, target, turn)
    ensures AllGoWell(cfg, target, turns + [turn])
    ensures RowsTotal(cfg, target, turns + [turn]) == RowsTotal(cfg, target, turns) + RowsReported(cfg, target, turn)
  {
    assert (turns + [turn])[..|turns|] == turns;
  }

  lemma AccountedNext(cfg: Config, target: Target, g: Progressed, g': Progressed, turn: Turn, v: Verdict)
    requires Accounted(cfg, target, g) && g.early.None? && Taken(turn) && g'.turns == g.turns + [turn]
    requires v == VerdictOf(cfg, target, turn)
    requires g'.early == if v.Proceed? then None else Some(Ended(v, g.total))
    requires g'.total == g.total + if v.Proceed? then v.rows else 0
    ensures Accounted(cfg, target, g')
  {
    TurnEndsIff(cfg, target, turn);
    if v.Proceed? {
      WellNext(cfg, target, g.turns, turn);
    } else {
      assert g'.turns[..|g'.turns| - 1] == g.turns;
    }
  }

  lemma {:induction false} CycleIsAccounted(cfg: Config, target: Target, a: Assembly, plan: seq<Planned>, k: nat)
    requires k <= |plan|
    ensures Accounted(cfg, target, CycleTo(cfg, target, a, plan, k))
  {
    if k > 0 {
      var g, next := CycleTo(cfg, target, a, plan, k - 1), plan[k - 1];
      CycleIsAccounted(cfg, target, a, plan, k - 1);
      if g.early.None? && next.source in g.at.sys.dbs {
        var turn := Turn(g.at, next.source, next.ch);
        AccountedNext(cfg, target, g, NextTurn(cfg, target, g, next), turn, VerdictOf(cfg, target, turn));
      }
    }
  }

  // What a sync cycle returns, told from the turns it took.
  lemma CycleReturnsRows(cfg: Config, target: Target, a: Assembly, choices: seq<Choice>)
    requires |choices| == |cfg.sources|
    ensures var g := Cycled(cfg, target, a, choices); CycleReturns(cfg, target, g.turns, ResultOf(g))
  {
    CycleIsAccounted(cfg, target, a, Plan(cfg.sources, choices), |cfg.sources|);
    var turns := Cycled(cfg, target, a, choices).turns;
    assert turns != [] ==> turns[|turns| - 1] in turns;
  }

  // ---------- a cycle is a run of the protocol ----------

  function NextEvents(cfg: Config, target: Target, g: Progressed, next: Planned): seq<Event> {
    if g.early.Some? || next.source !in g.at.sys.dbs then []
    else TurnEvents(cfg, target, g.at, next.source, next.ch)
  }

  function CycleEvents(cfg: Config, target: Target, a: Assembly, plan: seq<Planned>, k: nat): seq<Event>
    requires k <= |plan|
  {
    if k == 0 then []
    else CycleEvents(cfg, target, a, plan, k - 1)
         + NextEvents(cfg, target, CycleTo(cfg, target, a, plan, k - 1), plan[k - 1])
  }

  lemma {:induction false} CycleIsRun(cfg: Config, target: Target, a: Assembly, plan: seq<Planned>, k: nat)
    requires k <= |plan|
    ensures CycleTo(cfg, target, a, plan, k).at.sys == Run(cfg, a.sys, CycleEvents(cfg, target, a, plan, k))
  {
    if k > 0 {
      CycleIsRun(cfg, target, a, plan, k - 1);
      var g := CycleTo(cfg, target, a, plan, k - 1);
      RunConcat(cfg, a.sys, CycleEvents(cfg, target, a, plan, k - 1), NextEvents(cfg, target, g, plan[k - 1]));
    }
  }

  function EventsOf(cfg: Config, target: Target, a: Assembly, choices: seq<Choice>): seq<Event>
    requires |choices| == |cfg.sources|
  {
    CycleEvents(cfg, target, a, Plan(cfg.sources, choices), |cfg.sources|)
  }

  // So a cycle whose events the environment keeps safe leaves the tables replayable from both cursors.
  lemma CycleKeepsReplay(cfg: Config, target: Target, a: Assembly, choices: seq<Choice>, reach: Reach, initial: DB)
    requires |choices| == |cfg.sources| && Inv(cfg, a.sys, reach, initial)
    requires SafeRun(cfg, a.sys, reach, EventsOf(cfg, target, a, choices))
    ensures var s' := Cycled(cfg, target, a, choices).at.sys;
            && Inv(cfg, s', ReachAfter(cfg, a.sys, reach, EventsOf(cfg, target, a, choices)), initial)
            && Replays(cfg, s'.dbs, s'.mem, s'.target, initial) && Replays(cfg, s'.dbs, s'.disk, s'.target, initial)
  {
    var evs := EventsOf(cfg, target, a, choices);
    CycleIsRun(cfg, target, a, Plan(cfg.sources, choices), |cfg.sources|);
    RunKeepsInv(cfg, a.sys, reach, initial, evs);
    BothReplay(cfg, Cycled(cfg, target, a, choices).at.sys, ReachAfter(cfg, a.sys, reach, evs), initial);
  }

  // ---------- how the code's steps compose to a turn ----------

  // After a poll the client stands where the protocol's poll step leads, and has made out of the polled
  // rows the changes that carry the tracked ones.
  predicate Prepared(cfg: Config, s: System, s': System, source: string, ch: Choice, r: PollResult,
                     valid: seq<Change>, v: Option<Verdict>)
    requires source in s.dbs
  {
    var caps := s.dbs[source].captures;
    && s' == AfterPoll(cfg, s, source, r, ch.batchId, ch.saved).(phase := Idle)
    && (if Sends(cfg, source, caps, r, ch)
        then v.None? && Carries(cfg, source, caps, valid, Tracked(cfg, source, caps, r.entries))
        else v == Some(if ch.saved || (r.entries == [] && r.maxLsn == []) then Proceed(0) else Fail))
  }

  // Polling is the protocol's poll step; a batch is on its way exactly when there is something to send.
  predicate Polled(cfg: Config, s: System, s1: System, source: string, ch: Choice, rows: seq<Entry>, w: Option<Verdict>)
    requires source in s.dbs
  {
    && Run(cfg, s, [PollEvent(source, ch)])
       == (if w.Some? then s1 else s1.(phase := InFlight(source, ch.batchId, rows)))
    && (w.None? ==> rows != [])
    && w == PollVerdict(cfg, s, source, ch)
  }

  lemma PreparedIsStep(cfg: Config, s: System, s1: System, source: string, ch: Choice, p: PollResult,
                       valid: seq<Change>, w: Option<Verdict>)
    requires source in s.dbs && s.phase == Idle && p == PollOf(cfg, s, source, ch.faults)
    requires Prepared(cfg, s, s1, source, ch, p, valid, w)
    ensures Polled(cfg, s, s1, source, ch, Tracked(cfg, source, s.dbs[source].captures, p.entries), w)
    ensures w.None?
            ==> Carries(cfg, source, s.dbs[source].captures, valid,
                        Tracked(cfg, source, s.dbs[source].captures, p.entries))
  {
    RunOne(cfg, s, PollEvent(source, ch));
  }

  // The turn that ends with its poll.
  lemma PolledIsTurn(cfg: Config, target: Target, a: Assembly, s1: System, source: string, ch: Choice, rows: seq<Entry>,
                     w: Verdict)
    requires source in a.sys.dbs && !ch.pollFails && Polled(cfg, a.sys, s1, source, ch, rows, Some(w))
    ensures AfterTurn(cfg, target, a, source, ch) == Assembly(s1, a.cache)
    ensures TurnVerdict(cfg, target, a, source, ch) == w
  {
  }

  // The turn that goes on to deliver a batch.
  lemma DeliveredIsTurn(cfg: Config, target: Target, a: Assembly, s1: System, s2: System, source: string, ch: Choice,
                        rows: seq<Entry>, applied: Applied, cache: KeyCache)
    requires source in a.sys.dbs && !ch.pollFails && Polled(cfg, a.sys, s1, source, ch, rows, None)
    requires applied == Applying(cfg, target, a, source, ch)
    requires Run(cfg, s1.(phase := InFlight(source, ch.batchId, rows)), DeliveryEvents(ch, Commits(ch.net, applied)))
             == s2
    requires cache == if ch.net.Completes? then applied.cache else a.cache
    ensures AfterTurn(cfg, target, a, source, ch) == Assembly(s2, cache)
    ensures TurnVerdict(cfg, target, a, source, ch) == DeliveryVerdict(ch, applied)
  {
    RunConcat(cfg, a.sys, [PollEvent(source, ch)], DeliveryEvents(ch, Commits(ch.net, applied)));
  }

  lemma FailedPollIsTurn(cfg: Config, target: Target, a: Assembly, source: string, ch: Choice)
    requires source in a.sys.dbs && ch.pollFails
    ensures AfterTurn(cfg, target, a, source, ch) == a && TurnVerdict(cfg, target, a, source, ch) == Fail
  {
  }

  // What the exchange of a batch that carries some rows does to the target, and how it is answered.
  lemma ExchangeOfCarried(cfg: Config, target: Target, before: Store, source: string, caps: seq<Capture>,
                          changes: seq<Change>, rows: seq<Entry>, ch: Choice, stored: Store, r: Result<Ack, ()>,
                          applied: Applied)
    requires Carries(cfg, source, caps, changes, rows) && rows != [] && target.mappings == cfg.mappings
    requires KeyedDb(target, before.db)
    requires forall e :: e in rows ==> Replicable(cfg, target, source, caps, e)
    requires Exchanged(WriterEnv(target, before, true, [ch.trouble], 1), ch.batchId, changes, ch.net, stored, r)
    requires applied == ApplyAll(target, before.cache, changes, true, ch.trouble.failAt, before.db)
    ensures var committed := Commits(ch.net, applied);
            && KeyedDb(target, stored.db)
            && stored.db == (if committed then Apply(Writes(cfg, source, caps, rows), before.db) else before.db)
            && stored.cache == (if ch.net.Completes? then applied.cache else before.cache)
            && (r.Ok? <==> ch.net.Completes? && ch.net.answered)
            && (r.Ok? ==> && r.value.lsn == LastLsn(rows)
                          && r.value.status == (if committed then AckOk else ch.trouble.category)
                          && (committed ==> r.value.rowsProcessed == applied.result.value.1))
  {
    CarriedLsn(cfg, source, caps, changes, rows);
    assert WriterEnv(target, before, true, [ch.trouble], 1).apply(before, changes, 0) == applied;
    if Commits(ch.net, applied) {
      CommitOfCarried(cfg, target, source, caps, changes, rows, before.cache, ch.trouble.failAt, before.db);
    }
  }

  // What the exchange did to the parts of the system is what its events do.
  lemma DeliveryIsRun(cfg: Config, s1: System, s2: System, source: string, ch: Choice, rows: seq<Entry>,
                      committed: bool)
    requires source in s1.dbs && s1.phase == Idle && (committed ==> ch.net.Completes?)
    requires s2 == s1.(target := s2.target, mem := s2.mem, disk := s2.disk)
    requires s2.target == if committed then Apply(Writes(cfg, source, s1.dbs[source].captures, rows), s1.target)
                          else s1.target
    requires if committed && ch.net.answered
             then s2.mem == UpdateCursor(s1.mem, source, ch.batchId, LastLsn(rows))
                  && s2.disk == (if ch.ackSaved then s2.mem else s1.disk)
             else s2.mem == s1.mem && s2.disk == s1.disk
    ensures Run(cfg, s1.(phase := InFlight(source, ch.batchId, rows)), DeliveryEvents(ch, committed)) == s2
  {
    var f := s1.(phase := InFlight(source, ch.batchId, rows));
    if committed {
      var c := Step(cfg, f, Commit);
      var ack := DeliveryEvents(ch, committed)[1];
      assert DeliveryEvents(ch, committed)[1..] == [ack];
      RunOne(cfg, c, ack);
    } else {
      RunOne(cfg, f, Reject);
    }
  }

  lemma {:induction false} ReadRowsInLog(db: SourceDb, i: nat, start: Lsn, batchSize: nat, faults: seq<ReadFault>,
                                         acc: seq<Entry>)
    requires i <= |db.captures| && forall e :: e in acc ==> e in db.log
    ensures forall e :: e in ReadTables(db, i, start, batchSize, faults, acc) ==> e in db.log
    decreases |db.captures| - i
  {
    if i < |db.captures| {
      WindowRows(db, i, start, batchSize);
      if FaultAt(faults, i).Skipped? {
        ReadRowsInLog(db, i + 1, start, batchSize, faults, acc);
      } else {
        ReadRowsInLog(db, i + 1, start, batchSize, faults, acc + Part(db, i, start, batchSize, faults));
      }
    }
  }

  lemma PolledReplicable(cfg: Config, target: Target, source: string, db: SourceDb, entries: seq<Entry>, from: Lsn,
                         faults: seq<ReadFault>)
    requires entries == Poll(db, from, cfg.batchSize, faults).entries
    requires forall e :: e in db.log ==> Replicable(cfg, target, source, db.captures, e)
    ensures forall e :: e in Tracked(cfg, source, db.captures, entries)
                        ==> Replicable(cfg, target, source, db.captures, e)
  {
    ReadRowsInLog(db, 0, StartLsn(db, from), cfg.batchSize, faults, []);
    forall e | e in Tracked(cfg, source, db.captures, entries)
      ensures Replicable(cfg, target, source, db.captures, e)
    {
      FilterMember((x: Entry) => IsTracked(cfg, source, db.captures, x), entries, e);
    }
  }

  lemma RenderLast(caps: seq<Capture>, rows: seq<Entry>)
    requires Within(caps, rows) && rows != []
    ensures RenderAll(caps, rows)[|rows| - 1].lsn == rows[|rows| - 1].lsn
  {
  }

  lemma EmptyPrepared(cfg: Config, s: System, s': System, source: string, ch: Choice, p: PollResult, v: Option<Verdict>)
    requires source in s.dbs && s.phase == Idle && p.entries == []
    requires s' == if p.maxLsn == [] then s
                   else Save(s, UpdateCursor(s.mem, source, "no-changes-" + ch.batchId, p.maxLsn), ch.saved)
    requires v == Some(if ch.saved || p.maxLsn == [] then Proceed(0) else Fail)
    ensures Prepared(cfg, s, s', source, ch, p, [], v)
  {
  }

  lemma SkipPrepared(cfg: Config, s: System, s': System, source: string, ch: Choice, p: PollResult, lsn: Lsn,
                     v: Option<Verdict>)
    requires source in s.dbs && s.phase == Idle && p.entries != [] && lsn == p.entries[|p.entries| - 1].lsn
    requires Tracked(cfg, source, s.dbs[source].captures, p.entries) == []
    requires s' == Save(s, UpdateCursor(s.mem, source, "local-skip-" + ch.batchId, lsn), ch.saved)
    requires v == Some(if ch.saved then Proceed(0) else Fail)
    ensures Prepared(cfg, s, s', source, ch, p, [], v)
  {
  }

  lemma BatchPrepared(cfg: Config, s: System, s': System, source: string, ch: Choice, p: PollResult, lsn: Lsn,
                      valid: seq<Change>,
                      v: Option<Verdict>)
    requires source in s.dbs && s.phase == Idle && p.entries != [] && lsn == p.entries[|p.entries| - 1].lsn
    requires valid != []
    requires Carries(cfg, source, s.dbs[source].captures, valid,
                     Tracked(cfg, source, s.dbs[source].captures, p.entries))
    requires s' == Save(s, RecordPendingBatch(s.mem, source, ch.batchId, lsn, |valid|), ch.saved)
    requires v == if ch.saved then None else Some(Fail)
    ensures Prepared(cfg, s, s', source, ch, p, valid, v)
  {
  }
}
