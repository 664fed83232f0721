// A batch is grouped by table; the source committed its rows interleaved. With distinct target tables the
// difference does not show, neither in the tables nor in the server's decision.
module Ordering {
  import opened Common
  import opened Lsn
  import opened Sequences
  import opened Replica
  import opened Mapping
  import opened Source
  import opened Coverage
  import opened Changes
  import opened Protocol
  import opened Replay
  import opened Writer
  import opened Client
  import opened Reader
  import opened Filtering

  // ---------- the same rows of every table ----------

  ghost predicate SameTables(u: seq<Entry>, w: seq<Entry>) {
    forall i: nat :: Of(u, i) == Of(w, i)
  }

  lemma SameTablesSameWrites(cfg: Config, dbs: Databases, source: string, u: seq<Entry>, w: seq<Entry>, key: Key)
    requires DistinctTargets(cfg, dbs) && source in dbs && SameTables(u, w)
    ensures On(Writes(cfg, source, dbs[source].captures, u), key)
            == On(Writes(cfg, source, dbs[source].captures, w), key)
  {
    if Owns(cfg, dbs, source, key.table) {
      var owner :| 0 <= owner < |dbs[source].captures| && Feeds(cfg, dbs, source, owner, key.table);
      OnlyOwner(cfg, dbs, source, u, key, owner);
      OnlyOwner(cfg, dbs, source, w, key, owner);
    } else {
      NotOwned(cfg, dbs, source, u, key);
      NotOwned(cfg, dbs, source, w, key);
    }
  }

  lemma SameTablesSameDatabase(cfg: Config, dbs: Databases, source: string, u: seq<Entry>, w: seq<Entry>, target: DB)
    requires DistinctTargets(cfg, dbs) && source in dbs && SameTables(u, w)
    ensures Apply(Writes(cfg, source, dbs[source].captures, u), target)
            == Apply(Writes(cfg, source, dbs[source].captures, w), target)
  {
    forall key: Key
      ensures On(Writes(cfg, source, dbs[source].captures, u), key)
              == On(Writes(cfg, source, dbs[source].captures, w), key)
    {
      SameTablesSameWrites(cfg, dbs, source, u, w, key);
    }
    OrderIndependence(Writes(cfg, source, dbs[source].captures, u), Writes(cfg, source, dbs[source].captures, w),
                      target);
  }

  // Leaving untracked rows out changes nothing that is written.
  lemma {:induction false} UntrackedWriteNothing(cfg: Config, source: string, caps: seq<Capture>, rows: seq<Entry>)
    ensures Writes(cfg, source, caps, Tracked(cfg, source, caps, rows)) == Writes(cfg, source, caps, rows)
  {
    if rows != [] {
      UntrackedWriteNothing(cfg, source, caps, rows[1..]);
      var kept := Tracked(cfg, source, caps, rows[1..]);
      assert ([rows[0]] + kept)[1..] == kept;
    }
  }

  // ---------- the rows of a poll in commit order ----------

  // Walking the log and taking of each table as many rows as its quota says.
  function InCommitOrder(log: seq<Entry>, quota: nat -> nat): seq<Entry> {
    if log == [] then []
    else if quota(log[0].capture) == 0 then InCommitOrder(log[1..], quota)
    else [log[0]] + InCommitOrder(log[1..], Spend(quota, log[0].capture))
  }

  function Spend(quota: nat -> nat, capture: nat): nat -> nat {
    (i: nat) => if i == capture && quota(i) > 0 then quota(i) - 1 else quota(i)
  }

  // Of each table these are the first rows, as many as the quota allows.
  lemma {:induction false} CommitOrderTakes(log: seq<Entry>, quota: nat -> nat, i: nat)
    ensures Of(InCommitOrder(log, quota), i) == Take(Of(log, i), quota(i))
    decreases |log|
  {
    if log != [] {
      var e, rest := log[0], log[1..];
      if quota(e.capture) == 0 {
        CommitOrderTakes(rest, quota, i);
      } else {
        CommitOrderTakes(rest, Spend(quota, e.capture), i);
        var kept := InCommitOrder(rest, Spend(quota, e.capture));
        assert ([e] + kept)[1..] == kept;
      }
    }
  }

  lemma {:induction false} CommitOrderMember(log: seq<Entry>, quota: nat -> nat, e: Entry)
    requires e in InCommitOrder(log, quota)
    ensures e in log
    decreases |log|
  {
    if quota(log[0].capture) == 0 {
      CommitOrderMember(log[1..], quota, e);
    } else if e != log[0] {
      CommitOrderMember(log[1..], Spend(quota, log[0].capture), e);
    }
  }

  lemma {:induction false} CommitOrderIsSorted(log: seq<Entry>, quota: nat -> nat)
    requires Sorted(log)
    ensures Sorted(InCommitOrder(log, quota))
    decreases |log|
  {
    if log != [] {
      CommitOrderIsSorted(log[1..], quota);
      var spent := Spend(quota, log[0].capture);
      var kept := InCommitOrder(log[1..], spent);
      CommitOrderIsSorted(log[1..], spent);
      forall k | 0 <= k < |kept|
        ensures Value(log[0].lsn) <= Value(kept[k].lsn)
      {
        CommitOrderMember(log[1..], spent, kept[k]);
      }
    }
  }

  function PollInCommitOrder(db: SourceDb, from: Lsn, polled: seq<Entry>): seq<Entry> {
    InCommitOrder(After(db.log, Pos(from)), (i: nat) => |Of(polled, i)|)
  }

  // The polled rows in the order in which the source committed them: sorted, and the same of every table.
  lemma CommitOrderOfPoll(db: SourceDb, from: Lsn, batchSize: nat, faults: seq<ReadFault>)
    requires WellFormed(db) && GoodCursor(db, from)
    ensures var r := Poll(db, from, batchSize, faults).entries; var w := PollInCommitOrder(db, from, r);
            Sorted(w) && SameTables(r, w)
  {
    var r := Poll(db, from, batchSize, faults).entries;
    var after, quota := After(db.log, Pos(from)), (i: nat) => |Of(r, i)|;
    SortedFilter((e: Entry) => Value(e.lsn) > Pos(from), db.log);
    CommitOrderIsSorted(after, quota);
    forall i: nat
      ensures Of(r, i) == Of(InCommitOrder(after, quota), i)
    {
      CommitOrderTakes(after, quota, i);
      if i < |db.captures| {
        PollPrefix(db, from, batchSize, faults, i);
      } else {
        NoPolledBeyond(db, from, batchSize, faults, i);
      }
    }
  }

  lemma NoPolledBeyond(db: SourceDb, from: Lsn, batchSize: nat, faults: seq<ReadFault>, i: nat)
    requires i >= |db.captures|
    ensures Of(Poll(db, from, batchSize, faults).entries, i) == []
  {
    var start := StartLsn(db, from);
    ReadTablesShape(db, 0, start, batchSize, faults, [], i);
    NoneOf(Poll(db, from, batchSize, faults).entries, i);
  }

  // Table by table or in commit order: a poll leads to the same database.
  lemma GroupingDoesNotMatter(cfg: Config, dbs: Databases, source: string, from: Lsn, faults: seq<ReadFault>,
                              target: DB)
    requires DistinctTargets(cfg, dbs) && source in dbs && WellFormed(dbs[source]) && GoodCursor(dbs[source], from)
    ensures var caps, r := dbs[source].captures, Poll(dbs[source], from, cfg.batchSize, faults).entries;
            Apply(Writes(cfg, source, caps, Tracked(cfg, source, caps, r)), target)
            == Apply(Writes(cfg, source, caps, Tracked(cfg, source, caps, PollInCommitOrder(dbs[source], from, r))),
                     target)
  {
    var caps, r := dbs[source].captures, Poll(dbs[source], from, cfg.batchSize, faults).entries;
    var w := PollInCommitOrder(dbs[source], from, r);
    CommitOrderOfPoll(dbs[source], from, cfg.batchSize, faults);
    UntrackedWriteNothing(cfg, source, caps, r);
    UntrackedWriteNothing(cfg, source, caps, w);
    SameTablesSameDatabase(cfg, dbs, source, r, w, target);
  }

  // ---------- the server's decision ----------

  // The changes of a poll are, for each table, its rows numbered from zero.
  lemma {:induction false} RenderMember(caps: seq<Capture>, rows: seq<Entry>, c: Change)
    requires Within(caps, rows)
    ensures c in RenderAll(caps, rows) <==>
            exists i: nat, k: nat :: i < |caps| && k < |Of(rows, i)| && c == ToChange(caps[i], Of(rows, i)[k], k)
  {
    if rows != [] {
      var n := |rows| - 1;
      var init, e := rows[..n], rows[n];
      assert rows == init + [e];
      RenderMember(caps, init, c);
      RenderOne(caps, init, e);
      forall i: nat
        ensures Of(rows, i) == if i == e.capture then Of(init, i) + [e] else Of(init, i)
      {
        FilterConcat((x: Entry) => x.capture == i, init, [e]);
      }
      if i: nat, k: nat :| i < |caps| && k < |Of(init, i)| && c == ToChange(caps[i], Of(init, i)[k], k) {
        assert Of(rows, i)[k] == Of(init, i)[k];
      }
      if c == ToChange(caps[e.capture], e, |Of(init, e.capture)|) {
        assert Of(rows, e.capture)[|Of(init, e.capture)|] == e;
      }
      if i: nat, k: nat :| i < |caps| && k < |Of(rows, i)| && c == ToChange(caps[i], Of(rows, i)[k], k) {
        if k < |Of(init, i)| { assert Of(rows, i)[k] == Of(init, i)[k]; }
      }
    }
  }

  lemma {:induction false} FilterMapMember(cfg: Config, source: string, changes: seq<Change>, c: Change)
    ensures c in FilterMap(cfg, source, changes) <==>
            exists x :: x in changes && Resolve(cfg.sources, cfg.tracked, source, x.schemaName, x.tableName).Some?
                        && c == Renamed(x, Resolve(cfg.sources, cfg.tracked, source, x.schemaName, x.tableName).value)
  {
    if changes != [] {
      FilterMapMember(cfg, source, changes[1..], c);
      assert changes == [changes[0]] + changes[1..];
    }
  }

  lemma StampedMember(changes: seq<Change>, batchId: string, c: Change)
    ensures c in Stamped(changes, batchId) <==> exists x :: x in changes && c == x.(batchId := batchId)
  {
    if x :| x in changes && c == x.(batchId := batchId) {
      var k :| 0 <= k < |changes| && changes[k] == x;
      assert Stamped(changes, batchId)[k] == c;
    }
  }

  // Rows that agree table by table make batches of the same changes.
  lemma SameChanges(cfg: Config, source: string, caps: seq<Capture>, u: seq<Entry>, w: seq<Entry>, batchId: string,
                    c: Change)
    requires Within(caps, u) && Within(caps, w) && SameTables(u, w) && c in Batch(cfg, source, caps, u, batchId)
    ensures c in Batch(cfg, source, caps, w, batchId)
  {
    StampedMember(FilterMap(cfg, source, RenderAll(caps, u)), batchId, c);
    var y :| y in FilterMap(cfg, source, RenderAll(caps, u)) && c == y.(batchId := batchId);
    FilterMapMember(cfg, source, RenderAll(caps, u), y);
    FilterMapMember(cfg, source, RenderAll(caps, w), y);
    var x :| x in RenderAll(caps, u) && Resolve(cfg.sources, cfg.tracked, source, x.schemaName, x.tableName).Some?
             && y == Renamed(x, Resolve(cfg.sources, cfg.tracked, source, x.schemaName, x.tableName).value);
    RenderMember(caps, u, x);
    RenderMember(caps, w, x);
    StampedMember(FilterMap(cfg, source, RenderAll(caps, w)), batchId, c);
  }

  lemma BatchWritesRows(cfg: Config, source: string, caps: seq<Capture>, rows: seq<Entry>, batchId: string)
    requires Within(caps, rows)
    ensures Carries(cfg, source, caps, Batch(cfg, source, caps, rows, batchId), Tracked(cfg, source, caps, rows))
    ensures BatchWrites(cfg.mappings, Batch(cfg, source, caps, rows, batchId)) == Writes(cfg, source, caps, rows)
  {
    FilteredCarries(cfg, source, caps, rows);
    StampedCarries(cfg, source, caps, FilterMap(cfg, source, RenderAll(caps, rows)), Tracked(cfg, source, caps, rows),
                   batchId);
    CarriedWrites(cfg, source, caps, Batch(cfg, source, caps, rows, batchId), Tracked(cfg, source, caps, rows));
    UntrackedWriteNothing(cfg, source, caps, rows);
  }

  lemma BatchKeys(cfg: Config, target: Target, source: string, caps: seq<Capture>, rows: seq<Entry>, batchId: string)
    requires Within(caps, rows) && target.mappings == cfg.mappings
    requires forall e :: e in rows ==> Replicable(cfg, target, source, caps, e)
    ensures forall c :: c in Batch(cfg, source, caps, rows, batchId) ==> SameKey(target, c)
  {
    BatchWritesRows(cfg, source, caps, rows, batchId);
    forall e | e in Tracked(cfg, source, caps, rows)
      ensures e in rows
    {
      FilterMember((x: Entry) => IsTracked(cfg, source, caps, x), rows, e);
    }
    CarriedKeys(cfg, target, source, caps, Batch(cfg, source, caps, rows, batchId), Tracked(cfg, source, caps, rows));
  }

  // The server accepts a batch grouped by table if and only if it accepts the same rows in another order
  // that agrees table by table, and both leave the same database.
  lemma DecisionDoesNotDependOnOrder(cfg: Config, target: Target, dbs: Databases, source: string, u: seq<Entry>,
                                     w: seq<Entry>, batchId: string, cache: map<string, seq<string>>,
                                     truth: (string, string) -> seq<string>, schemas: set<string>, db: DB)
    requires DistinctTargets(cfg, dbs) && source in dbs && SameTables(u, w) && target.mappings == cfg.mappings
    requires Within(dbs[source].captures, u) && Within(dbs[source].captures, w)
    requires forall e :: e in u ==> Replicable(cfg, target, source, dbs[source].captures, e)
    requires KeyedDb(target, db) && CacheAgrees(cache, truth, schemas)
    requires forall c :: c in Batch(cfg, source, dbs[source].captures, u, batchId)
                         ==> FixedKeys(target, c, truth, schemas)
    ensures var a := ApplyAll(target, cache, Batch(cfg, source, dbs[source].captures, u, batchId), true, None, db);
            var b := ApplyAll(target, cache, Batch(cfg, source, dbs[source].captures, w, batchId), true, None, db);
            (a.result.Ok? <==> b.result.Ok?) && (a.result.Ok? ==> a.result.value.0 == b.result.value.0)
  {
    var caps := dbs[source].captures;
    var a, b := Batch(cfg, source, caps, u, batchId), Batch(cfg, source, caps, w, batchId);
    forall c
      ensures c in a <==> c in b
    {
      if c in a { SameChanges(cfg, source, caps, u, w, batchId, c); }
      if c in b { SameChanges(cfg, source, caps, w, u, batchId, c); }
    }
    BatchWritesRows(cfg, source, caps, u, batchId);
    BatchWritesRows(cfg, source, caps, w, batchId);
    BatchKeys(cfg, target, source, caps, u, batchId);
    forall key: Key
      ensures On(BatchWrites(target.mappings, a), key) == On(BatchWrites(target.mappings, b), key)
    {
      SameTablesSameWrites(cfg, dbs, source, u, w, key);
    }
    AcceptanceIsOrderIndependent(target, cache, a, b, truth, schemas, db);
  }
}
