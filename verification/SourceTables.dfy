// What the log says about the source tables themselves, and that replication reproduces them on the
// replicated columns although it never looks at before-images.
module SourceTables {
  import opened Common
  import opened Replica
  import opened Mapping
  import opened Source
  import opened Changes
  import opened Protocol
  import opened Replay
  import opened Invariant
  import Drain

  // The key of the target table a captured row belongs to.
  predicate AtKey(cfg: Config, source: string, caps: seq<Capture>, e: Entry, key: Key) {
    IsTracked(cfg, source, caps, e)
    && key == Key(TargetOf(cfg, source, caps[e.capture]).value, KeyData(caps[e.capture].columns, e.values))
  }

  // One captured row, read as a change of the source table by its __$operation: 1 deletes a row and 2 inserts one; an
  // update removes the old row, which comes as 3, and puts the new one, which comes as 4, in its place.
  function SourceStep(cfg: Config, source: string, caps: seq<Capture>, e: Entry, key: Key, c: Cell): Cell {
    if !AtKey(cfg, source, caps, e, key) then c
    else if e.op == 2 || e.op == 4 then Some(RowData(caps[e.capture].columns, e.values))
    else if e.op == 1 || e.op == 3 then None
    else c
  }

  function SourceCell(cfg: Config, source: string, caps: seq<Capture>, log: seq<Entry>, key: Key, c: Cell): Cell {
    if log == [] then c
    else SourceCell(cfg, source, caps, log[1..], key, SourceStep(cfg, source, caps, log[0], key, c))
  }

  // Every before-image (3) is followed by the after-image (4) of the same row.
  predicate Paired(caps: seq<Capture>, log: seq<Entry>) {
    if log == [] then true
    else if log[0].op != 3 then Paired(caps, log[1..])
    else
      && |log| >= 2 && log[1].op == 4 && log[1].capture == log[0].capture
      && (log[0].capture < |caps| ==>
            KeyData(caps[log[0].capture].columns, log[0].values)
            == KeyData(caps[log[0].capture].columns, log[1].values))
      && Paired(caps, log[2..])
  }

  // A captured table with a primary key, all of whose rows carry all their columns.
  predicate CompleteTable(caps: seq<Capture>, log: seq<Entry>, i: nat)
    requires i < |caps|
  {
    && DistinctNames(caps[i].columns) && KeyNames(caps[i].columns) != []
    && forall e :: e in log && e.capture == i ==> |e.values| >= |caps[i].columns|
  }

  // The replicated columns of a target row.
  function View(columns: set<string>, c: Cell): Cell {
    if c.Some? then Some(Project(c.value, columns)) else None
  }

  // Merging a full row shows exactly that row on the replicated columns.
  lemma ViewOfPut(columns: set<string>, row: Row, c: Cell)
    requires row.Keys == columns
    ensures View(columns, StepCell(Put(row), c)) == Some(row)
  {
    assert Project(row, columns) == row;
    if c.Some? { assert Project(c.value + row, columns) == row; }
  }

  // What a captured row of a tracked table writes, by its __$operation, and where: into the table that the client's
  // entry names, under the server's override of the schema, at the row's key.
  lemma CapturedWrites(cfg: Config, source: string, caps: seq<Capture>, e: Entry, tt: TrackedTable)
    requires e.capture < |caps|
    requires Resolve(cfg.sources, cfg.tracked, source, caps[e.capture].schema, caps[e.capture].table) == Some(tt)
    ensures var row, pk := RowData(caps[e.capture].columns, e.values), KeyData(caps[e.capture].columns, e.values);
            var key := Key(MapSchema(cfg.mappings, tt.targetSchema) + "." + tt.targetTable, pk);
            && (e.op == 1 ==> EntryWrites(cfg, source, caps, e) == if pk == map[] then [] else [Write(key, Del)])
            && (e.op == 2 || e.op == 4
                ==> EntryWrites(cfg, source, caps, e) == if row == map[] then [] else [Write(key, Put(row))])
            && (e.op !in {1, 2, 4} ==> EntryWrites(cfg, source, caps, e) == [])
  {
  }

  // A table without an entry in the configuration writes nothing.
  lemma UntrackedWrites(cfg: Config, source: string, caps: seq<Capture>, e: Entry)
    requires e.capture < |caps|
             ==> Resolve(cfg.sources, cfg.tracked, source, caps[e.capture].schema, caps[e.capture].table) == None
    ensures EntryWrites(cfg, source, caps, e) == []
  {
  }

  lemma OneEntry(cfg: Config, source: string, caps: seq<Capture>, e: Entry, key: Key, owner: nat, c: Cell)
    requires owner < |caps| && TargetOf(cfg, source, caps[owner]) == Some(key.table)
    requires forall i :: 0 <= i < |caps| && i != owner ==> TargetOf(cfg, source, caps[i]) != Some(key.table)
    requires CompleteTable(caps, [e], owner)
    ensures var columns := ColumnNames(caps[owner].columns);
            e.op != 3 ==>
              View(columns, RunCell(On(EntryWrites(cfg, source, caps, e), key), c))
              == SourceStep(cfg, source, caps, e, key, View(columns, c))
    ensures e.op == 3 ==> EntryWrites(cfg, source, caps, e) == []
  {
    var ws := EntryWrites(cfg, source, caps, e);
    if e.capture == owner {
      assert e in [e];
      FullRow(caps[owner].columns, e.values);
      if ws != [] {
        assert |ws| == 1 && ws[1..] == [];
        if ws[0].key == key {
          assert On(ws, key) == [ws[0].op] && On(ws, key)[1..] == [];
          if ws[0].op.Put? { ViewOfPut(ColumnNames(caps[owner].columns), ws[0].op.row, c); }
        }
      }
    } else {
      assert On(ws, key) == [];
    }
  }

  // Playing a well-paired log onto the target agrees, on the replicated columns of every key, with
  // playing it onto the source table, before-images included.
  lemma {:induction false} BeforeImagesDoNotMatter(cfg: Config, source: string, caps: seq<Capture>, log: seq<Entry>,
                                                   key: Key,
                                                  owner: nat, c: Cell)
    requires owner < |caps| && TargetOf(cfg, source, caps[owner]) == Some(key.table)
    requires forall i :: 0 <= i < |caps| && i != owner ==> TargetOf(cfg, source, caps[i]) != Some(key.table)
    requires Paired(caps, log) && CompleteTable(caps, log, owner)
    ensures var columns := ColumnNames(caps[owner].columns);
            View(columns, RunCell(On(Writes(cfg, source, caps, log), key), c))
            == SourceCell(cfg, source, caps, log, key, View(columns, c))
    decreases |log|
  {
    if log != [] {
      var ws, rest := EntryWrites(cfg, source, caps, log[0]), log[1..];
      OneEntry(cfg, source, caps, log[0], key, owner, c);
      OnConcat(ws, Writes(cfg, source, caps, rest), key);
      RunCellConcat(On(ws, key), On(Writes(cfg, source, caps, rest), key), c);
      if log[0].op != 3 {
        BeforeImagesDoNotMatter(cfg, source, caps, rest, key, owner, RunCell(On(ws, key), c));
      } else {
        PairedUpdate(cfg, source, caps, log, key, owner, c);
      }
    }
  }

  lemma {:induction false} PairedUpdate(cfg: Config, source: string, caps: seq<Capture>, log: seq<Entry>, key: Key,
                                        owner: nat, c: Cell)
    requires owner < |caps| && TargetOf(cfg, source, caps[owner]) == Some(key.table)
    requires forall i :: 0 <= i < |caps| && i != owner ==> TargetOf(cfg, source, caps[i]) != Some(key.table)
    requires log != [] && log[0].op == 3
    requires Paired(caps, log) && CompleteTable(caps, log, owner)
    ensures var columns := ColumnNames(caps[owner].columns);
            View(columns, RunCell(On(Writes(cfg, source, caps, log[1..]), key), c))
            == SourceCell(cfg, source, caps, log[1..], key,
                          SourceStep(cfg, source, caps, log[0], key, View(columns, c)))
    decreases |log|, 0
  {
    var next, rest := log[1], log[2..];
    assert log[1..][0] == next && log[1..][1..] == rest;
    var ws := EntryWrites(cfg, source, caps, next);
    OneEntry(cfg, source, caps, next, key, owner, c);
    OnConcat(ws, Writes(cfg, source, caps, rest), key);
    RunCellConcat(On(ws, key), On(Writes(cfg, source, caps, rest), key), c);
    // The before-image touches the key exactly when its after-image does, and that one decides.
    assert AtKey(cfg, source, caps, log[0], key) <==> AtKey(cfg, source, caps, next, key);
    BeforeImagesDoNotMatter(cfg, source, caps, rest, key, owner, RunCell(On(ws, key), c));
  }

  // An update pair is reproduced, on the key of its before-image, if and only if the key did not change;
  // otherwise the old row stays behind.
  lemma PairReproducedIff(cfg: Config, source: string, caps: seq<Capture>, before: Entry, after: Entry, key: Key,
                          row: Row)
    requires IsTracked(cfg, source, caps, before) && before.capture == after.capture
    requires forall i :: 0 <= i < |caps| && i != before.capture ==> TargetOf(cfg, source, caps[i]) != Some(key.table)
    requires before.op == 3 && after.op == 4
    requires AtKey(cfg, source, caps, before, key)
    requires CompleteTable(caps, [before, after], before.capture)
    ensures var columns := ColumnNames(caps[before.capture].columns);
            View(columns, RunCell(On(Writes(cfg, source, caps, [before, after]), key), Some(row)))
            == SourceCell(cfg, source, caps, [before, after], key, View(columns, Some(row)))
            <==> KeyData(caps[before.capture].columns, after.values) == key.pk
  {
    var pair := [before, after];
    var columns := ColumnNames(caps[before.capture].columns);
    assert pair[1..] == [after] && pair[2..] == [] && [after][1..] == [];
    if KeyData(caps[before.capture].columns, after.values) == key.pk {
      assert Paired(caps, pair);
      BeforeImagesDoNotMatter(cfg, source, caps, pair, key, before.capture, Some(row));
    } else {
      var ws := EntryWrites(cfg, source, caps, after);
      assert Writes(cfg, source, caps, [after]) == ws + [] == ws;
      assert Writes(cfg, source, caps, pair) == EntryWrites(cfg, source, caps, before) + ws == [] + ws == ws;
      OneEntry(cfg, source, caps, after, key, before.capture, Some(row));
      assert On(ws, key) == [];
      assert SourceCell(cfg, source, caps, [after], key, None) == None;
    }
  }

  // The replicated tables are the source tables: on every key of a table a source feeds, the converged
  // target shows, on the replicated columns, what the source table holds.
  lemma ReplicatedIsSource(cfg: Config, dbs: Databases, initial: DB, source: string, owner: nat, key: Key)
    requires DistinctTargets(cfg, dbs) && Feeds(cfg, dbs, source, owner, key.table)
    requires WellFormed(dbs[source])
    requires Paired(dbs[source].captures, dbs[source].log)
    requires CompleteTable(dbs[source].captures, dbs[source].log, owner)
    ensures var caps := dbs[source].captures; var columns := ColumnNames(caps[owner].columns);
            View(columns, Lookup(Replicated(cfg, dbs, initial), key))
            == SourceCell(cfg, source, caps, dbs[source].log, key, View(columns, Lookup(initial, key)))
  {
    var caps, log := dbs[source].captures, dbs[source].log;
    Pointwise(Backlog(cfg, dbs, map[]), initial, key);
    BacklogOfOwner(cfg, dbs, map[], source, key);
    Sequences.FilterAll((e: Entry) => Lsn.Value(e.lsn) > -1, log);
    forall i | 0 <= i < |caps| && i != owner
      ensures TargetOf(cfg, source, caps[i]) != Some(key.table)
    {
      assert Feeds(cfg, dbs, source, i, key.table) ==> i == owner;
    }
    BeforeImagesDoNotMatter(cfg, source, caps, log, key, owner, Lookup(initial, key));
  }

  // End to end: once the logs rest, undisturbed cycles lead from every state that satisfies the invariant, with
  // every source's first batch acknowledged, to a target that shows, on every key of a replicated table, what
  // the source table holds, if the polls they make are closed.
  lemma ConvergesToSource(cfg: Config, s: System, reach: Reach, initial: DB, rounds: seq<seq<Drain.Visit>>,
                          source: string, owner: nat, key: Key)
    requires Inv(cfg, s, reach, initial) && Drain.ReadyToDrain(s) && cfg.batchSize > 0
    requires forall visits :: visits in rounds ==> Drain.FullRound(s.dbs, visits)
    requires forall x :: x in s.dbs ==> Drain.Remaining(s, x) <= |rounds|
    requires SafeRun(cfg, s, reach, Drain.Rounds(rounds))
    requires Feeds(cfg, s.dbs, source, owner, key.table)
    requires Paired(s.dbs[source].captures, s.dbs[source].log)
    requires CompleteTable(s.dbs[source].captures, s.dbs[source].log, owner)
    ensures var caps := s.dbs[source].captures; var columns := ColumnNames(caps[owner].columns);
            View(columns, Lookup(Run(cfg, s, Drain.Rounds(rounds)).target, key))
            == SourceCell(cfg, source, caps, s.dbs[source].log, key, View(columns, Lookup(initial, key)))
  {
    Drain.Converges(cfg, s, reach, initial, rounds);
    ReplicatedIsSource(cfg, s.dbs, initial, source, owner, key);
  }
}
