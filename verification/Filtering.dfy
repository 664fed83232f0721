// The client's filter: which polled changes are sent, under which names, and what they stand for.
module Filtering {
  import opened Common
  import opened Sequences
  import opened Replica
  import opened Mapping
  import opened Source
  import opened Changes
  import opened Protocol
  import opened Writer
  import opened Server
  import opened Client
  import opened Reader

  // The tracked changes, in order, under their target names.
  function FilterMap(cfg: Config, source: string, changes: seq<Change>): seq<Change> {
    if changes == [] then []
    else
      match Resolve(cfg.sources, cfg.tracked, source, changes[0].schemaName, changes[0].tableName)
      case Some(tt) => [Renamed(changes[0], tt)] + FilterMap(cfg, source, changes[1..])
      case None => FilterMap(cfg, source, changes[1..])
  }

  function Renamed(c: Change, tt: TrackedTable): Change {
    c.(schemaName := tt.targetSchema, tableName := tt.targetTable)
  }

  lemma {:induction false} FilterMapConcat(cfg: Config, source: string, a: seq<Change>, b: seq<Change>)
    ensures FilterMap(cfg, source, a + b) == FilterMap(cfg, source, a) + FilterMap(cfg, source, b)
  {
    if a == [] {
      assert a + b == b;
    } else {
      assert (a + b)[1..] == a[1..] + b;
      FilterMapConcat(cfg, source, a[1..], b);
    }
  }

  lemma FilterMapOne(cfg: Config, source: string, changes: seq<Change>, c: Change)
    ensures FilterMap(cfg, source, changes + [c]) == FilterMap(cfg, source, changes) +
              match Resolve(cfg.sources, cfg.tracked, source, c.schemaName, c.tableName)
              case Some(tt) => [Renamed(c, tt)]
              case None => []
  {
    FilterMapConcat(cfg, source, changes, [c]);
    assert FilterMap(cfg, source, [c][1..]) == [];
  }

  // What the client makes of a tracked row, up to the numbers it is given.
  function SentAs(cfg: Config, source: string, caps: seq<Capture>, e: Entry): Change
    requires IsTracked(cfg, source, caps, e)
  {
    var cap := caps[e.capture];
    Renamed(ToChange(cap, e, 0), Resolve(cfg.sources, cfg.tracked, source, cap.schema, cap.table).value)
  }

  // A change carries a captured row: its LSN, operation, key, row and columns, to its target table.
  predicate CarriesOne(cfg: Config, source: string, caps: seq<Capture>, c: Change, e: Entry) {
    && IsTracked(cfg, source, caps, e)
    && c == SentAs(cfg, source, caps, e).(batchId := c.batchId, sequenceNumber := c.sequenceNumber)
  }

  predicate Carries(cfg: Config, source: string, caps: seq<Capture>, changes: seq<Change>, rows: seq<Entry>) {
    |changes| == |rows| && forall k :: 0 <= k < |rows| ==> CarriesOne(cfg, source, caps, changes[k], rows[k])
  }

  // What the client makes of polled rows, before and after it stamps them with the batch's identifier.
  function Selection(cfg: Config, source: string, caps: seq<Capture>, rows: seq<Entry>): seq<Change>
    requires Within(caps, rows)
  {
    FilterMap(cfg, source, RenderAll(caps, rows))
  }

  function Batch(cfg: Config, source: string, caps: seq<Capture>, rows: seq<Entry>, batchId: string): seq<Change>
    requires Within(caps, rows)
  {
    Stamped(Selection(cfg, source, caps, rows), batchId)
  }

  lemma OneFiltered(cfg: Config, source: string, caps: seq<Capture>, e: Entry, n: nat)
    requires e.capture < |caps|
    ensures Carries(cfg, source, caps, FilterMap(cfg, source, [ToChange(caps[e.capture], e, n)]),
                    Tracked(cfg, source, caps, [e]))
  {
    var c := ToChange(caps[e.capture], e, n);
    assert FilterMap(cfg, source, [c][1..]) == [] && Tracked(cfg, source, caps, [e][1..]) == [];
  }

  // What the client sends of a poll carries exactly the tracked rows of the poll, in order.
  lemma {:induction false} FilteredCarries(cfg: Config, source: string, caps: seq<Capture>, rows: seq<Entry>)
    requires Within(caps, rows)
    ensures Carries(cfg, source, caps, FilterMap(cfg, source, RenderAll(caps, rows)), Tracked(cfg, source, caps, rows))
  {
    if rows != [] {
      var n := |rows| - 1;
      var init, e := rows[..n], rows[n];
      assert rows == init + [e];
      FilteredCarries(cfg, source, caps, init);
      RenderOne(caps, init, e);
      var c := ToChange(caps[e.capture], e, |Of(init, e.capture)|);
      FilterMapConcat(cfg, source, RenderAll(caps, init), [c]);
      FilterConcat((x: Entry) => IsTracked(cfg, source, caps, x), init, [e]);
      OneFiltered(cfg, source, caps, e, |Of(init, e.capture)|);
    }
  }

  lemma StampedCarries(cfg: Config, source: string, caps: seq<Capture>, changes: seq<Change>, rows: seq<Entry>,
                       batchId: string)
    requires Carries(cfg, source, caps, changes, rows)
    ensures Carries(cfg, source, caps, Stamped(changes, batchId), rows)
  {
    forall k | 0 <= k < |rows|
      ensures CarriesOne(cfg, source, caps, Stamped(changes, batchId)[k], rows[k])
    {
      assert CarriesOne(cfg, source, caps, changes[k], rows[k]);
    }
  }

  // A batch that carries some rows writes what the rows write.
  lemma {:induction false} CarriedWrites(cfg: Config, source: string, caps: seq<Capture>, changes: seq<Change>,
                                         rows: seq<Entry>)
    requires Carries(cfg, source, caps, changes, rows)
    ensures BatchWrites(cfg.mappings, changes) == Writes(cfg, source, caps, rows)
  {
    if rows != [] {
      assert CarriesOne(cfg, source, caps, changes[0], rows[0]);
      CarriedWrites(cfg, source, caps, changes[1..], rows[1..]);
    }
  }

  lemma {:induction false} CarriedLsn(cfg: Config, source: string, caps: seq<Capture>, changes: seq<Change>,
                                      rows: seq<Entry>)
    requires Carries(cfg, source, caps, changes, rows)
    ensures LastLsnOf(changes) == LastLsn(rows)
  {
    if rows != [] {
      var n := |rows| - 1;
      assert CarriesOne(cfg, source, caps, changes[n], rows[n]);
      CarriedLsn(cfg, source, caps, changes[..n], rows[..n]);
    }
  }

  // The captured rows of tracked tables are complete and keyed as their target tables are.
  predicate Replicable(cfg: Config, target: Target, source: string, caps: seq<Capture>, e: Entry) {
    IsTracked(cfg, source, caps, e) ==>
      var cap := caps[e.capture];
      var table := TargetOf(cfg, source, cap).value;
      && DistinctNames(cap.columns) && |e.values| >= |cap.columns|
      && (table in target.catalog ==> Names(KeyNames(cap.columns)) == Names(target.catalog[table].primaryKey))
  }

  lemma CarriedKeys(cfg: Config, target: Target, source: string, caps: seq<Capture>, changes: seq<Change>,
                    rows: seq<Entry>)
    requires Carries(cfg, source, caps, changes, rows) && target.mappings == cfg.mappings
    requires forall e :: e in rows ==> Replicable(cfg, target, source, caps, e)
    ensures forall c :: c in changes ==> SameKey(target, c)
  {
    forall c | c in changes
      ensures SameKey(target, c)
    {
      var k :| 0 <= k < |changes| && changes[k] == c;
      var e := rows[k];
      assert CarriesOne(cfg, source, caps, c, e) && Replicable(cfg, target, source, caps, e);
      KeyAgreement(caps[e.capture].columns, e.values);
    }
  }

  // Committing what the client sends for some tracked rows does to the target what those rows stand for.
  lemma CommitOfCarried(cfg: Config, target: Target, source: string, caps: seq<Capture>, changes: seq<Change>,
                        rows: seq<Entry>,
                        cache: map<string, seq<string>>, failAt: Option<Failure>, db: DB)
    requires Carries(cfg, source, caps, changes, rows) && target.mappings == cfg.mappings && KeyedDb(target, db)
    requires forall e :: e in rows ==> Replicable(cfg, target, source, caps, e)
    requires ApplyAll(target, cache, changes, true, failAt, db).result.Ok?
    ensures ApplyAll(target, cache, changes, true, failAt, db).result.value.0
            == Apply(Writes(cfg, source, caps, rows), db)
    ensures KeyedDb(target, ApplyAll(target, cache, changes, true, failAt, db).result.value.0)
  {
    CarriedKeys(cfg, target, source, caps, changes, rows);
    CarriedWrites(cfg, source, caps, changes, rows);
    CommittedBatchIsWrites(target, cache, changes, failAt, db);
  }
}
