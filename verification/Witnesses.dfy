// Small runs in which one of the demands on the environment is broken and replication goes wrong.
module Witnesses {
  import opened Common
  import opened Lsn
  import opened Sequences
  import opened Replica
  import opened Mapping
  import opened Source
  import opened Changes
  import opened Protocol
  import opened Drain
  import opened Hypotheses

  // Two captured tables t and u with a key column, both tracked.
  const COLUMNS := [ColumnMeta("id", true)]

  const SRC: string := "src"

  function Cfg(batchSize: nat): Config {
    Config([SRC], [TrackedTable(SRC, "dbo", "t", "public", "t"), TrackedTable(SRC, "dbo", "u", "public", "u")], [],
           batchSize)
  }

  function Tables(a: Lsn): seq<Capture> {
    [Capture("dbo", "t", a, COLUMNS), Capture("dbo", "u", a, COLUMNS)]
  }

  function TableName(i: nat): string {
    if i == 0 then "public.t" else "public.u"
  }

  function Inserted(lsn: Lsn, table: nat, id: string): Entry {
    Entry(lsn, table, 2, [id])
  }

  function KeyOf(table: nat, id: string): Key {
    Key(TableName(table), map["id" := id])
  }

  function Start(a: Lsn, log: seq<Entry>, maxLsn: Lsn): System {
    System(map[SRC := SourceDb(Tables(a), log, maxLsn)], map[], map[], map[], Idle, [])
  }

  predicate UsableLsn(a: Lsn) {
    |a| == LSN_BYTES && 0 < Value(a) && Value(a) + 1 < Pow256(LSN_BYTES)
  }

  lemma Targets(batchSize: nat, a: Lsn, i: nat)
    requires i < 2
    ensures TargetOf(Cfg(batchSize), SRC, Tables(a)[i]) == Some(TableName(i))
  {
    var cfg := Cfg(batchSize);
    var cap := Tables(a)[i];
    assert "t" != "u";
    ResolveIsLastMatch(cfg.sources, cfg.tracked, SRC, cap.schema, cap.table, i);
    assert Dotted("public", "t") == "public.t" && Dotted("public", "u") == "public.u";
  }

  lemma StartIsInitial(batchSize: nat, a: Lsn, log: seq<Entry>, maxLsn: Lsn)
    requires WellFormed(SourceDb(Tables(a), log, maxLsn))
    ensures Initial(Cfg(batchSize), Start(a, log, maxLsn), map[])
  {
    var dbs := Start(a, log, maxLsn).dbs;
    forall i: nat, table | Feeds(Cfg(batchSize), dbs, SRC, i, table)
      ensures table == TableName(i) && i < 2
    {
      Targets(batchSize, a, i);
    }
    assert TableName(0)[7] == 't' && TableName(1)[7] == 'u';
  }

  lemma InsertWrites(batchSize: nat, a: Lsn, lsn: Lsn, table: nat, id: string)
    requires table < 2
    ensures IsTracked(Cfg(batchSize), SRC, Tables(a), Inserted(lsn, table, id))
    ensures EntryWrites(Cfg(batchSize), SRC, Tables(a), Inserted(lsn, table, id))
            == [Write(KeyOf(table, id), Put(map["id" := id]))]
  {
    Targets(batchSize, a, table);
    assert Width(COLUMNS, [id]) == 1 && RowUpTo(COLUMNS, [id], 0) == map[] && KeyUpTo(COLUMNS, [id], 0) == map[];
    assert RowData(COLUMNS, [id]) == map["id" := id] && KeyData(COLUMNS, [id]) == map["id" := id];
    assert "id" in map["id" := id];
    assert OperationOf(2) == Insert;
  }

  lemma StartsAtMinimum(a: Lsn, log: seq<Entry>, maxLsn: Lsn)
    requires UsableLsn(a)
    ensures StartLsn(SourceDb(Tables(a), log, maxLsn), []) == a
    ensures EffectiveLsn(a, a) == a
  {
    var u := [Tables(a)[1]];
    assert Tables(a)[1..] == u && u[1..] == [] && u[0].minLsn == a;
    assert MinLsn(u) == a;
    assert MinLsn(Tables(a)) == a;
  }

  // ---------- polls that are not closed ----------

  lemma TrackedOne(batchSize: nat, a: Lsn, lsn: Lsn, table: nat, id: string)
    requires table < 2 && lsn != []
    ensures Tracked(Cfg(batchSize), SRC, Tables(a), [Inserted(lsn, table, id)]) == [Inserted(lsn, table, id)]
    ensures LastLsn([Inserted(lsn, table, id)]) == lsn
  {
    InsertWrites(batchSize, a, lsn, table, id);
    assert [Inserted(lsn, table, id)][1..] == [] && [Inserted(lsn, table, id)][..0] == [];
  }

  // A first poll that returns one insert and passes another loses the other.
  lemma OneSentOneLost(batchSize: nat, a: Lsn, log: seq<Entry>, maxLsn: Lsn, faults: seq<ReadFault>, batchId: string,
                       sentLsn: Lsn, sentTable: nat, sentId: string, lostLsn: Lsn, lostTable: nat, lostId: string)
    requires var db := SourceDb(Tables(a), log, maxLsn); var sent := Inserted(sentLsn, sentTable, sentId);
             WellFormed(db) && Poll(db, [], batchSize, faults) == PollResult([sent], maxLsn)
    requires |log| == 2 && sentTable < 2 && lostTable < 2 && KeyOf(lostTable, lostId) != KeyOf(sentTable, sentId)
    requires forall e :: e in log
                         <==> e == Inserted(sentLsn, sentTable, sentId) || e == Inserted(lostLsn, lostTable, lostId)
    requires |sentLsn| == LSN_BYTES && Value(lostLsn) <= Value(sentLsn)
    ensures var s := Start(a, log, maxLsn); var s' := Run(Cfg(batchSize), s, CycleWith(SRC, faults, batchId));
            Initial(Cfg(batchSize), s, map[]) && !Replays(Cfg(batchSize), s'.dbs, s'.mem, s'.target, map[])
  {
    var cfg, s := Cfg(batchSize), Start(a, log, maxLsn);
    var lost, sent := Inserted(lostLsn, lostTable, lostId), Inserted(sentLsn, sentTable, sentId);
    StartIsInitial(batchSize, a, log, maxLsn);
    TrackedOne(batchSize, a, sentLsn, sentTable, sentId);
    InsertWrites(batchSize, a, lostLsn, lostTable, lostId);
    InsertWrites(batchSize, a, sentLsn, sentTable, sentId);
    OtherKeyUntouched(KeyOf(lostTable, lostId), KeyOf(sentTable, sentId), map["id" := sentId]);
    assert PollOf(cfg, s, SRC, faults) == PollResult([sent], maxLsn);
    assert lost != sent;
    UnclosedPollLosesRow(cfg, s, map[], SRC, faults, batchId, PollResult([sent], maxLsn), lost,
                         KeyOf(lostTable, lostId), Put(map["id" := lostId]));
  }

  lemma OtherKeyUntouched(key: Key, other: Key, row: Row)
    requires key != other
    ensures On([Write(other, Put(row))], key) == []
  {
    assert [Write(other, Put(row))][1..] == [];
  }

  // A transaction cut by TOP: two rows of one LSN, one of them in the window.
  lemma SplitTransactionLosesRow(a: Lsn, batchId: string)
    requires UsableLsn(a)
    ensures var s := Start(a, [Inserted(a, 0, "1"), Inserted(a, 0, "2")], a);
            var s' := Run(Cfg(1), s, CycleWith(SRC, [], batchId));
            Initial(Cfg(1), s, map[]) && !Replays(Cfg(1), s'.dbs, s'.mem, s'.target, map[])
  {
    var log := [Inserted(a, 0, "1"), Inserted(a, 0, "2")];
    CutTransaction(a, log);
    DifferentIds();
    OneSentOneLost(1, a, log, a, [], batchId, a, 0, "1", a, 0, "2");
  }

  lemma CutTransaction(a: Lsn, log: seq<Entry>)
    requires UsableLsn(a) && log != [] && forall e :: e in log ==> e.capture == 0 && e.lsn == a
    ensures Poll(SourceDb(Tables(a), log, a), [], 1, []) == PollResult([log[0]], a)
  {
    var db := SourceDb(Tables(a), log, a);
    StartsAtMinimum(a, log, a);
    FilterAll((e: Entry) => e.capture == 0 && Value(e.lsn) >= Value(a), log);
    assert Window(db, 0, a, 1) == [log[0]];
    assert [] + [log[0]] == [log[0]];
  }

  lemma DifferentIds()
    ensures KeyOf(0, "1") != KeyOf(0, "2") && KeyOf(0, "1") != KeyOf(1, "1")
  {
    assert map["id" := "1"]["id"] != map["id" := "2"]["id"];
    assert TableName(0)[7] == 't' && TableName(1)[7] == 'u';
  }

  // A row of u at LSN a, then one of t at b.
  function TwoTables(a: Lsn, b: Lsn): seq<Entry> {
    [Inserted(a, 1, "1"), Inserted(b, 0, "1")]
  }

  lemma WindowOfT(a: Lsn, b: Lsn, batchSize: nat)
    requires UsableLsn(a) && UsableLsn(b) && Value(a) <= Value(b) && batchSize > 0
    ensures Window(SourceDb(Tables(a), TwoTables(a, b), b), 0, a, batchSize) == [Inserted(b, 0, "1")]
  {
    var log := TwoTables(a, b);
    var rest := log[1..];
    StartsAtMinimum(a, log, b);
    assert rest == [log[1]] && rest[1..] == [];
    assert RowsFrom(SourceDb(Tables(a), log, b), 0, a)
           == Filter((e: Entry) => e.capture == 0 && Value(e.lsn) >= Value(a), rest);
  }

  // The early exit: table t fills the batch, the earlier row of u is not read, and the cursor passes it.
  lemma EarlyExitLosesRow(a: Lsn, b: Lsn, batchId: string)
    requires UsableLsn(a) && UsableLsn(b) && Value(a) <= Value(b)
    ensures var s := Start(a, TwoTables(a, b), b); var s' := Run(Cfg(1), s, CycleWith(SRC, [], batchId));
            Initial(Cfg(1), s, map[]) && !Replays(Cfg(1), s'.dbs, s'.mem, s'.target, map[])
  {
    var db := SourceDb(Tables(a), TwoTables(a, b), b);
    StartsAtMinimum(a, db.log, b);
    WindowOfT(a, b, 1);
    assert [] + [Inserted(b, 0, "1")] == [Inserted(b, 0, "1")];
    assert Poll(db, [], 1, []) == PollResult([Inserted(b, 0, "1")], b);
    DifferentIds();
    OneSentOneLost(1, a, db.log, b, [], batchId, b, 0, "1", a, 1, "1");
  }

  // A read error, logged and skipped or taken for an empty result: the same loss with room to spare.
  lemma SwallowedErrorLosesRow(a: Lsn, b: Lsn, fault: ReadFault, batchId: string)
    requires UsableLsn(a) && UsableLsn(b) && Value(a) <= Value(b) && !fault.Healthy?
    ensures var s := Start(a, TwoTables(a, b), b); var s' := Run(Cfg(10), s, CycleWith(SRC, [Healthy, fault], batchId));
            Initial(Cfg(10), s, map[]) && !Replays(Cfg(10), s'.dbs, s'.mem, s'.target, map[])
  {
    var db, sent := SourceDb(Tables(a), TwoTables(a, b), b), [Inserted(b, 0, "1")];
    var faults := [Healthy, fault];
    StartsAtMinimum(a, db.log, b);
    WindowOfT(a, b, 10);
    assert [] + sent == sent && sent + [] == sent;
    assert ReadTables(db, 2, a, 10, faults, sent) == sent;
    assert ReadTables(db, 1, a, 10, faults, sent) == sent;
    assert Poll(db, [], 10, faults) == PollResult(sent, b);
    DifferentIds();
    OneSentOneLost(10, a, db.log, b, faults, batchId, b, 0, "1", a, 1, "1");
  }

  // ---------- two tables with one target ----------

  const WIDE := [ColumnMeta("id", true), ColumnMeta("v", false)]

  function SharedCfg(batchSize: nat): Config {
    Config([SRC], [TrackedTable(SRC, "dbo", "t", "public", "t"), TrackedTable(SRC, "dbo", "u", "public", "t")], [],
           batchSize)
  }

  function WideTables(a: Lsn): seq<Capture> {
    [Capture("dbo", "t", a, WIDE), Capture("dbo", "u", a, WIDE)]
  }

  function WideRow(v: string): Row {
    map["id" := "1", "v" := v]
  }

  lemma WideWrites(batchSize: nat, a: Lsn, lsn: Lsn, table: nat, v: string)
    requires table < 2
    ensures EntryWrites(SharedCfg(batchSize), SRC, WideTables(a), Entry(lsn, table, 2, ["1", v]))
            == [Write(KeyOf(0, "1"), Put(WideRow(v)))]
  {
    var cfg := SharedCfg(batchSize);
    var cap := WideTables(a)[table];
    assert "t" != "u";
    ResolveIsLastMatch(cfg.sources, cfg.tracked, SRC, cap.schema, cap.table, table);
    assert Dotted("public", "t") == "public.t";
    assert TargetOf(cfg, SRC, cap) == Some(TableName(0));
    assert Width(WIDE, ["1", v]) == 2 && RowUpTo(WIDE, ["1", v], 0) == map[] && KeyUpTo(WIDE, ["1", v], 0) == map[];
    assert RowUpTo(WIDE, ["1", v], 1) == map["id" := "1"] && KeyUpTo(WIDE, ["1", v], 1) == map["id" := "1"];
    assert RowData(WIDE, ["1", v]) == WideRow(v) && KeyData(WIDE, ["1", v]) == map["id" := "1"];
    assert "id" in WideRow(v) && OperationOf(2) == Insert;
  }

  lemma TwoWideRows(batchSize: nat, a: Lsn, first: Entry, second: Entry, v: string, w: string)
    requires first.capture < 2 && first.op == 2 && first.values == ["1", v] && second.capture < 2
    requires second.op == 2 && second.values == ["1", w]
    ensures var db := Apply(Writes(SharedCfg(batchSize), SRC, WideTables(a), [first, second]), map[]);
            KeyOf(0, "1") in db && db[KeyOf(0, "1")] == WideRow(w)
  {
    assert [first, second][1..] == [second] && [second][1..] == [];
    WideWrites(batchSize, a, first.lsn, first.capture, v);
    WideWrites(batchSize, a, second.lsn, second.capture, w);
    var one, two := Write(KeyOf(0, "1"), Put(WideRow(v))), Write(KeyOf(0, "1"), Put(WideRow(w)));
    assert Writes(SharedCfg(batchSize), SRC, WideTables(a), [second]) == [two];
    assert Writes(SharedCfg(batchSize), SRC, WideTables(a), [first, second]) == [one] + [two] == [one, two];
    LastPutWins(KeyOf(0, "1"), v, w);
  }

  // The same rows of every table, grouped and in commit order, with one target table: another result.
  lemma SharedTargetShowsTheOrder(batchSize: nat, a: Lsn, b: Lsn)
    ensures var ofU, ofT := Entry(a, 1, 2, ["1", "old"]), Entry(b, 0, 2, ["1", "new"]);
            && (forall i: nat :: Of([ofU, ofT], i) == Of([ofT, ofU], i))
            && Apply(Writes(SharedCfg(batchSize), SRC, WideTables(a), [ofU, ofT]), map[])
               != Apply(Writes(SharedCfg(batchSize), SRC, WideTables(a), [ofT, ofU]), map[])
  {
    var ofU, ofT := Entry(a, 1, 2, ["1", "old"]), Entry(b, 0, 2, ["1", "new"]);
    forall i: nat
      ensures Of([ofU, ofT], i) == Of([ofT, ofU], i)
    {
      assert [ofU, ofT] == [ofU] + [ofT] && [ofT, ofU] == [ofT] + [ofU];
      FilterConcat((e: Entry) => e.capture == i, [ofU], [ofT]);
      FilterConcat((e: Entry) => e.capture == i, [ofT], [ofU]);
      FilterAll((e: Entry) => e.capture == i, [ofU]);
      FilterAll((e: Entry) => e.capture == i, [ofT]);
    }
    TwoWideRows(batchSize, a, ofU, ofT, "old", "new");
    TwoWideRows(batchSize, a, ofT, ofU, "new", "old");
    assert WideRow("old")["v"] != WideRow("new")["v"];
  }

  // One transaction: a row of u, then one of t, of the same target row.
  function SharedDb(a: Lsn): SourceDb {
    SourceDb(WideTables(a), [Entry(a, 1, 2, ["1", "old"]), Entry(a, 0, 2, ["1", "new"])], a)
  }

  // A run that meets every other demand: with one target for two tables, an undisturbed cycle whose poll is
  // closed leaves the row of the earlier change for good.
  lemma SharedTargetBreaksReplay(a: Lsn, batchId: string)
    requires UsableLsn(a)
    ensures var cfg, s := SharedCfg(10), Alone(SRC, SharedDb(a), map[]); var s' := Run(cfg, s, Cycle(SRC, batchId));
            && WellFormed(s.dbs[SRC]) && SafeRun(cfg, s, map[], Cycle(SRC, batchId))
            && !Replays(cfg, s'.dbs, s'.mem, s'.target, map[])
  {
    var db, first, second := SharedDb(a), WideRow("old"), WideRow("new");
    WideWrites(10, a, a, 1, "old");
    WideWrites(10, a, a, 0, "new");
    assert first + second == second && second + first == first && first["v"] != second["v"];
    SharedTargetBreaks(SharedCfg(10), 0, db, map[], db.log[0], db.log[1], KeyOf(0, "1"), Put(first), Put(second),
                       batchId);
  }

  lemma LastPutWins(key: Key, v: string, w: string)
    ensures var db := Apply([Write(key, Put(WideRow(v))), Write(key, Put(WideRow(w)))], map[]);
            key in db && db[key] == WideRow(w)
  {
    var one, two := Write(key, Put(WideRow(v))), Write(key, Put(WideRow(w)));
    var none: DB := map[];
    assert [one, two][1..] == [two] && [two][1..] == [];
    var first := ApplyOne(one, none);
    assert Lookup(first, key) == Some(WideRow(v));
    assert WideRow(v) + WideRow(w) == WideRow(w);
    assert Apply([one, two], none) == Apply([two], first) == Apply([], ApplyOne(two, first)) == ApplyOne(two, first);
  }
}
