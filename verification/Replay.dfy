// Replay: what applying, moving and appending do to the outcome of replaying everything beyond the cursors.
module Replay {
  import opened Common
  import opened Lsn
  import opened Replica
  import opened Sequences
  import opened Source
  import opened Coverage
  import opened Cursors
  import opened Protocol

  // ---------- the writes of a log ----------

  lemma {:induction false} WritesConcat(cfg: Config, source: string, caps: seq<Capture>, a: seq<Entry>, b: seq<Entry>)
    ensures Writes(cfg, source, caps, a + b) == Writes(cfg, source, caps, a) + Writes(cfg, source, caps, b)
  {
    if a == [] {
      assert a + b == b;
    } else {
      assert (a + b)[1..] == a[1..] + b;
      WritesConcat(cfg, source, caps, a[1..], b);
    }
  }

  lemma {:induction false} WritesMember(cfg: Config, source: string, caps: seq<Capture>, rows: seq<Entry>, w: Write)
    ensures w in Writes(cfg, source, caps, rows) <==> exists e :: e in rows && w in EntryWrites(cfg, source, caps, e)
  {
    if rows != [] {
      WritesMember(cfg, source, caps, rows[1..], w);
      assert rows == [rows[0]] + rows[1..];
    }
  }

  lemma WritesSubset(cfg: Config, source: string, caps: seq<Capture>, a: seq<Entry>, b: seq<Entry>)
    requires forall e :: e in a ==> e in b
    ensures forall w :: w in Writes(cfg, source, caps, a) ==> w in Writes(cfg, source, caps, b)
  {
    forall w | w in Writes(cfg, source, caps, a)
      ensures w in Writes(cfg, source, caps, b)
    {
      WritesMember(cfg, source, caps, a, w);
      WritesMember(cfg, source, caps, b, w);
    }
  }

  // A target table that no captured table of the source feeds is never written by it.
  lemma {:induction false} WritesElsewhere(cfg: Config, source: string, caps: seq<Capture>, rows: seq<Entry>, key: Key)
    requires forall i :: 0 <= i < |caps| ==> TargetOf(cfg, source, caps[i]) != Some(key.table)
    ensures On(Writes(cfg, source, caps, rows), key) == []
  {
    if rows != [] {
      WritesElsewhere(cfg, source, caps, rows[1..], key);
      OnConcat(EntryWrites(cfg, source, caps, rows[0]), Writes(cfg, source, caps, rows[1..]), key);
    }
  }

  // A target table fed by one captured table only sees that table's rows.
  lemma {:induction false} WritesOfOwner(cfg: Config, source: string, caps: seq<Capture>, rows: seq<Entry>, key: Key,
                                         owner: nat)
    requires forall i :: 0 <= i < |caps| && i != owner ==> TargetOf(cfg, source, caps[i]) != Some(key.table)
    ensures On(Writes(cfg, source, caps, rows), key) == On(Writes(cfg, source, caps, Of(rows, owner)), key)
  {
    if rows != [] {
      var e, rest := rows[0], rows[1..];
      WritesOfOwner(cfg, source, caps, rest, key, owner);
      OnConcat(EntryWrites(cfg, source, caps, e), Writes(cfg, source, caps, rest), key);
      if e.capture == owner {
        assert ([e] + Of(rest, owner))[1..] == Of(rest, owner);
        OnConcat(EntryWrites(cfg, source, caps, e), Writes(cfg, source, caps, Of(rest, owner)), key);
      } else {
        assert On(EntryWrites(cfg, source, caps, e), key) == [];
      }
    }
  }

  lemma NotOwned(cfg: Config, dbs: Databases, source: string, rows: seq<Entry>, key: Key)
    requires source in dbs && !Owns(cfg, dbs, source, key.table)
    ensures On(Writes(cfg, source, dbs[source].captures, rows), key) == []
  {
    var caps := dbs[source].captures;
    assert forall i: nat :: i < |caps| && TargetOf(cfg, source, caps[i]) == Some(key.table)
                            ==> Feeds(cfg, dbs, source, i, key.table);
    WritesElsewhere(cfg, source, caps, rows, key);
  }

  lemma OnlyOwner(cfg: Config, dbs: Databases, source: string, rows: seq<Entry>, key: Key, owner: nat)
    requires DistinctTargets(cfg, dbs) && Feeds(cfg, dbs, source, owner, key.table)
    ensures On(Writes(cfg, source, dbs[source].captures, rows), key)
            == On(Writes(cfg, source, dbs[source].captures, Of(rows, owner)), key)
  {
    var caps := dbs[source].captures;
    forall i: nat | i < |caps| && i != owner
      ensures TargetOf(cfg, source, caps[i]) != Some(key.table)
    {
      assert Feeds(cfg, dbs, source, i, key.table) ==> i == owner;
    }
    WritesOfOwner(cfg, source, caps, rows, key, owner);
  }

  // ---------- the backlog ----------

  // On a key of a table the source owns, the backlog is the source's own part of it.
  lemma BacklogOfOwner(cfg: Config, dbs: Databases, c: Cursors, source: string, key: Key)
    requires DistinctTargets(cfg, dbs) && Owns(cfg, dbs, source, key.table)
    ensures On(Backlog(cfg, dbs, c), key) == On(SourceBacklog(cfg, dbs, c, source), key)
  {
    var j :| 0 <= j < |cfg.sources| && cfg.sources[j] == source;
    forall k | 0 <= k < |cfg.sources| && k != j
      ensures On(SourceBacklog(cfg, dbs, c, cfg.sources[k]), key) == []
    {
      NotTheOwner(cfg, dbs, c, source, cfg.sources[k], key);
    }
    BacklogOfIndex(cfg, dbs, c, j, key, 0);
  }

  lemma {:induction false} BacklogOfIndex(cfg: Config, dbs: Databases, c: Cursors, j: nat, key: Key, k: nat)
    requires j < |cfg.sources| && k <= |cfg.sources|
    requires forall i :: 0 <= i < |cfg.sources| && i != j ==> On(SourceBacklog(cfg, dbs, c, cfg.sources[i]), key) == []
    ensures On(BacklogFrom(cfg, dbs, c, k), key) ==
            if k <= j then On(SourceBacklog(cfg, dbs, c, cfg.sources[j]), key) else []
    decreases |cfg.sources| - k
  {
    if k < |cfg.sources| {
      BacklogOfIndex(cfg, dbs, c, j, key, k + 1);
      OnConcat(SourceBacklog(cfg, dbs, c, cfg.sources[k]), BacklogFrom(cfg, dbs, c, k + 1), key);
    }
  }

  lemma NotTheOwner(cfg: Config, dbs: Databases, c: Cursors, source: string, other: string, key: Key)
    requires DistinctTargets(cfg, dbs) && Owns(cfg, dbs, source, key.table) && other != source
    ensures On(SourceBacklog(cfg, dbs, c, other), key) == []
  {
    if other in dbs {
      NotOwned(cfg, dbs, other, After(dbs[other].log, AckedPos(c, other)), key);
    }
  }

  // On a key of a table the source does not own, its cursor and its log do not matter.
  lemma {:induction false} BacklogOfOthers(cfg: Config, dbs: Databases, dbs': Databases, c: Cursors, c': Cursors,
                                           source: string, key: Key, k: nat)
    requires k <= |cfg.sources| && source in dbs && !Owns(cfg, dbs, source, key.table)
    requires dbs'.Keys == dbs.Keys && dbs'[source].captures == dbs[source].captures
    requires forall s :: s in dbs && s != source ==> dbs[s] == dbs'[s] && AckedPos(c, s) == AckedPos(c', s)
    ensures On(BacklogFrom(cfg, dbs, c, k), key) == On(BacklogFrom(cfg, dbs', c', k), key)
    decreases |cfg.sources| - k
  {
    if k < |cfg.sources| {
      var s := cfg.sources[k];
      BacklogOfOthers(cfg, dbs, dbs', c, c', source, key, k + 1);
      OnConcat(SourceBacklog(cfg, dbs, c, s), BacklogFrom(cfg, dbs, c, k + 1), key);
      OnConcat(SourceBacklog(cfg, dbs', c', s), BacklogFrom(cfg, dbs', c', k + 1), key);
      if s == source {
        NotOwned(cfg, dbs, s, After(dbs[s].log, AckedPos(c, s)), key);
        NotOwned(cfg, dbs, s, After(dbs'[s].log, AckedPos(c', s)), key);
      }
    }
  }

  lemma {:induction false} BacklogContains(cfg: Config, dbs: Databases, c: Cursors, source: string, w: Write, k: nat)
    requires k <= |cfg.sources| && source in cfg.sources[k..] && w in SourceBacklog(cfg, dbs, c, source)
    ensures w in BacklogFrom(cfg, dbs, c, k)
    decreases |cfg.sources| - k
  {
    assert cfg.sources[k..] == [cfg.sources[k]] + cfg.sources[k + 1..];
    if cfg.sources[k] != source {
      BacklogContains(cfg, dbs, c, source, w, k + 1);
    }
  }

  ghost predicate GoodDatabases(cfg: Config, dbs: Databases) {
    DistinctTargets(cfg, dbs) && forall source :: source in dbs ==> WellFormed(dbs[source])
  }

  // ---------- what each kind of event does to replay ----------

  // Applying rows that lie beyond a cursor keeps replay from that cursor right: they come again.
  lemma CommitKeepsReplay(cfg: Config, dbs: Databases, c: Cursors, target: DB, initial: DB, source: string,
                          rows: seq<Entry>)
    requires DistinctTargets(cfg, dbs) && source in dbs && Replays(cfg, dbs, c, target, initial)
    requires forall e :: e in rows ==> e in After(dbs[source].log, AckedPos(c, source))
    ensures Replays(cfg, dbs, c, Apply(Writes(cfg, source, dbs[source].captures, rows), target), initial)
  {
    var caps, beyond := dbs[source].captures, After(dbs[source].log, AckedPos(c, source));
    WritesSubset(cfg, source, caps, rows, beyond);
    forall w | w in Writes(cfg, source, caps, rows)
      ensures w in Backlog(cfg, dbs, c)
    {
      BacklogContains(cfg, dbs, c, source, w, 0);
    }
    Absorption(Writes(cfg, source, caps, rows), Backlog(cfg, dbs, c), target);
  }

  // One table, one key: rows delivered up to and past a new position, followed by the rows beyond
  // the position, do what all rows beyond the old position do.
  lemma AdvanceCell(cfg: Config, source: string, caps: seq<Capture>, all: seq<Entry>, got: seq<Entry>, newPos: int,
                    key: Key, c: Cell)
    requires Sorted(all) && got <= all && UpTo(all, newPos) <= got
    ensures RunCell(On(Writes(cfg, source, caps, After(all, newPos)), key),
                    RunCell(On(Writes(cfg, source, caps, got), key), c))
            == RunCell(On(Writes(cfg, source, caps, all), key), c)
  {
    SortedSplit(all, newPos);
    var x, s := UpTo(all, newPos), After(all, newPos);
    var y := got[|x|..];
    assert got == x + y && all == x + s;
    assert y == s[..|y|];
    WritesConcat(cfg, source, caps, x, y);
    WritesConcat(cfg, source, caps, x, s);
    var wx, wy, ws := Writes(cfg, source, caps, x), Writes(cfg, source, caps, y), Writes(cfg, source, caps, s);
    OnConcat(wx, wy, key);
    OnConcat(wx, ws, key);
    RunCellConcat(On(wx, key), On(wy, key), c);
    RunCellConcat(On(wx, key), On(ws, key), c);
    WritesSubset(cfg, source, caps, y, s);
    forall op | op in On(wy, key)
      ensures op in On(ws, key)
    {
      OnMember(wy, key, op);
      OnMember(ws, key, op);
    }
    AbsorbCell(On(wy, key), On(ws, key), RunCell(On(wx, key), c));
  }

  // Applying rows and moving the cursor over them keeps replay right if the move is covered.
  lemma {:induction false} AdvanceKeepsReplay(cfg: Config, dbs: Databases, c: Cursors, c': Cursors, target: DB,
                                              initial: DB,
                           source: string, rows: seq<Entry>)
    requires DistinctTargets(cfg, dbs) && source in dbs && WellFormed(dbs[source])
    requires Replays(cfg, dbs, c, target, initial)
    requires forall s :: s in dbs && s != source ==> AckedPos(c, s) == AckedPos(c', s)
    requires AckedPos(c, source) <= AckedPos(c', source)
    requires forall i :: 0 <= i < |dbs[source].captures| && TargetOf(cfg, source, dbs[source].captures[i]).Some?
                         ==> Of(rows, i) <= Of(After(dbs[source].log, AckedPos(c, source)), i)
    requires Covers(cfg, source, dbs[source], AckedPos(c, source), rows, AckedPos(c', source))
    ensures Replays(cfg, dbs, c', Apply(Writes(cfg, source, dbs[source].captures, rows), target), initial)
  {
    var caps, delivered := dbs[source].captures, Writes(cfg, source, dbs[source].captures, rows);
    var target' := Apply(delivered, target);
    forall key: Key
      ensures Lookup(Apply(Backlog(cfg, dbs, c'), target'), key) == Lookup(Apply(Backlog(cfg, dbs, c), target), key)
    {
      Pointwise(delivered, target, key);
      Pointwise(Backlog(cfg, dbs, c'), target', key);
      Pointwise(Backlog(cfg, dbs, c), target, key);
      if Owns(cfg, dbs, source, key.table) {
        AdvanceOwned(cfg, dbs, c, c', source, rows, key, Lookup(target, key));
      } else {
        NotOwned(cfg, dbs, source, rows, key);
        BacklogOfOthers(cfg, dbs, dbs, c, c', source, key, 0);
      }
    }
    SameCellsSameDb(Apply(Backlog(cfg, dbs, c'), target'), Apply(Backlog(cfg, dbs, c), target));
  }

  lemma AdvanceOwned(cfg: Config, dbs: Databases, c: Cursors, c': Cursors, source: string, rows: seq<Entry>, key: Key,
                     cell: Cell)
    requires DistinctTargets(cfg, dbs) && source in dbs && WellFormed(dbs[source]) && Owns(cfg, dbs, source, key.table)
    requires AckedPos(c, source) <= AckedPos(c', source)
    requires forall i :: 0 <= i < |dbs[source].captures| && TargetOf(cfg, source, dbs[source].captures[i]).Some?
                         ==> Of(rows, i) <= Of(After(dbs[source].log, AckedPos(c, source)), i)
    requires Covers(cfg, source, dbs[source], AckedPos(c, source), rows, AckedPos(c', source))
    ensures RunCell(On(Backlog(cfg, dbs, c'), key),
                    RunCell(On(Writes(cfg, source, dbs[source].captures, rows), key), cell))
            == RunCell(On(Backlog(cfg, dbs, c), key), cell)
  {
    var db, p, q := dbs[source], AckedPos(c, source), AckedPos(c', source);
    var owner :| 0 <= owner < |db.captures| && Feeds(cfg, dbs, source, owner, key.table);
    BacklogOfOwner(cfg, dbs, c, source, key);
    BacklogOfOwner(cfg, dbs, c', source, key);
    OnlyOwner(cfg, dbs, source, After(db.log, p), key, owner);
    OnlyOwner(cfg, dbs, source, After(db.log, q), key, owner);
    OnlyOwner(cfg, dbs, source, rows, key, owner);
    var all := Of(After(db.log, p), owner);
    SortedFilter((e: Entry) => Value(e.lsn) > p, db.log);
    SortedFilter((e: Entry) => e.capture == owner, After(db.log, p));
    AfterAfter(db.log, p, q);
    AfterOf(After(db.log, p), q, owner);
    assert CoversTable(db.log, p, rows, q, owner);
    AdvanceCell(cfg, source, db.captures, all, Of(rows, owner), q, key, cell);
  }

  predicate SameCaptures(dbs: Databases, dbs': Databases) {
    dbs.Keys == dbs'.Keys && forall source :: source in dbs ==> dbs[source].captures == dbs'[source].captures
  }

  lemma SameCapturesSameTargets(cfg: Config, dbs: Databases, dbs': Databases)
    requires DistinctTargets(cfg, dbs) && SameCaptures(dbs, dbs')
    ensures DistinctTargets(cfg, dbs')
  {
    assert forall source, i: nat, table :: Feeds(cfg, dbs', source, i, table) ==> Feeds(cfg, dbs, source, i, table);
  }

  // New rows, all later than anything the cursor can stand at, join both sides of replay alike.
  lemma AppendKeepsReplay(cfg: Config, dbs: Databases, c: Cursors, target: DB, initial: DB,
                          source: string, rows: seq<Entry>, maxLsn: Lsn)
    requires DistinctTargets(cfg, dbs) && source in dbs && Replays(cfg, dbs, c, target, initial)
    requires AckedPos(c, source) <= Pos(dbs[source].maxLsn)
    requires forall e :: e in rows ==> Pos(dbs[source].maxLsn) < Value(e.lsn)
    ensures Replays(cfg, dbs[source := dbs[source].(log := dbs[source].log + rows, maxLsn := maxLsn)], c, target,
                    initial)
  {
    var dbs' := dbs[source := dbs[source].(log := dbs[source].log + rows, maxLsn := maxLsn)];
    forall key: Key
      ensures Lookup(Apply(Backlog(cfg, dbs', c), target), key) == Lookup(Replicated(cfg, dbs', initial), key)
    {
      Pointwise(Backlog(cfg, dbs, c), target, key);
      Pointwise(Backlog(cfg, dbs', c), target, key);
      Pointwise(Backlog(cfg, dbs, map[]), initial, key);
      Pointwise(Backlog(cfg, dbs', map[]), initial, key);
      if Owns(cfg, dbs, source, key.table) {
        AppendOwned(cfg, dbs, c, source, rows, maxLsn, key);
        AppendOwned(cfg, dbs, map[], source, rows, maxLsn, key);
        var news := On(Writes(cfg, source, dbs[source].captures, rows), key);
        RunCellConcat(On(Backlog(cfg, dbs, c), key), news, Lookup(target, key));
        RunCellConcat(On(Backlog(cfg, dbs, map[]), key), news, Lookup(initial, key));
      } else {
        BacklogOfOthers(cfg, dbs, dbs', c, c, source, key, 0);
        BacklogOfOthers(cfg, dbs, dbs', map[], map[], source, key, 0);
      }
    }
    SameCellsSameDb(Apply(Backlog(cfg, dbs', c), target), Replicated(cfg, dbs', initial));
  }

  lemma AppendOwned(cfg: Config, dbs: Databases, c: Cursors, source: string, rows: seq<Entry>, maxLsn: Lsn, key: Key)
    requires DistinctTargets(cfg, dbs) && source in dbs && Owns(cfg, dbs, source, key.table)
    requires forall e :: e in rows ==> AckedPos(c, source) < Value(e.lsn)
    ensures On(Backlog(cfg, dbs[source := dbs[source].(log := dbs[source].log + rows, maxLsn := maxLsn)], c), key)
            == On(Backlog(cfg, dbs, c), key) + On(Writes(cfg, source, dbs[source].captures, rows), key)
  {
    var db, p := dbs[source], AckedPos(c, source);
    var dbs' := dbs[source := db.(log := db.log + rows, maxLsn := maxLsn)];
    SameCapturesSameTargets(cfg, dbs, dbs');
    assert Owns(cfg, dbs', source, key.table) by {
      var i :| 0 <= i < |db.captures| && Feeds(cfg, dbs, source, i, key.table);
      assert Feeds(cfg, dbs', source, i, key.table);
    }
    BacklogOfOwner(cfg, dbs, c, source, key);
    BacklogOfOwner(cfg, dbs', c, source, key);
    FilterConcat((e: Entry) => Value(e.lsn) > p, db.log, rows);
    FilterAll((e: Entry) => Value(e.lsn) > p, rows);
    WritesConcat(cfg, source, db.captures, After(db.log, p), rows);
    OnConcat(Writes(cfg, source, db.captures, After(db.log, p)), Writes(cfg, source, db.captures, rows), key);
  }

  // ---------- replay from an earlier position ----------

  lemma SplitAt(cfg: Config, source: string, caps: seq<Capture>, log: seq<Entry>, pos: int, key: Key)
    requires Sorted(log)
    ensures On(Writes(cfg, source, caps, log), key)
            == On(Writes(cfg, source, caps, UpTo(log, pos)), key) + On(Writes(cfg, source, caps, After(log, pos)), key)
  {
    SortedSplit(log, pos);
    WritesConcat(cfg, source, caps, UpTo(log, pos), After(log, pos));
    OnConcat(Writes(cfg, source, caps, UpTo(log, pos)), Writes(cfg, source, caps, After(log, pos)), key);
  }

  // All writes of a key: those up to its source's cursor, then its backlog.
  lemma FullSplit(cfg: Config, dbs: Databases, c: Cursors, source: string, key: Key)
    requires DistinctTargets(cfg, dbs) && Owns(cfg, dbs, source, key.table) && WellFormed(dbs[source])
    ensures On(Backlog(cfg, dbs, map[]), key)
            == On(Writes(cfg, source, dbs[source].captures, UpTo(dbs[source].log, AckedPos(c, source))), key)
               + On(Backlog(cfg, dbs, c), key)
  {
    var log := dbs[source].log;
    BacklogOfOwner(cfg, dbs, map[], source, key);
    BacklogOfOwner(cfg, dbs, c, source, key);
    FilterAll((e: Entry) => Value(e.lsn) > -1, log);
    assert After(log, AckedPos(map[], source)) == log;
    SplitAt(cfg, source, dbs[source].captures, log, AckedPos(c, source), key);
  }

  lemma {:induction false} NobodyWrites(cfg: Config, dbs: Databases, c: Cursors, key: Key, k: nat)
    requires k <= |cfg.sources| && forall source :: source in dbs ==> !Owns(cfg, dbs, source, key.table)
    ensures On(BacklogFrom(cfg, dbs, c, k), key) == []
    decreases |cfg.sources| - k
  {
    if k < |cfg.sources| {
      var s := cfg.sources[k];
      NobodyWrites(cfg, dbs, c, key, k + 1);
      OnConcat(SourceBacklog(cfg, dbs, c, s), BacklogFrom(cfg, dbs, c, k + 1), key);
      if s in dbs { NotOwned(cfg, dbs, s, After(dbs[s].log, AckedPos(c, s)), key); }
    }
  }

  lemma SplitBetween(cfg: Config, source: string, caps: seq<Capture>, log: seq<Entry>, d: int, q: int, key: Key)
    requires Sorted(log) && d <= q
    ensures On(Writes(cfg, source, caps, After(log, d)), key)
            == On(Writes(cfg, source, caps, UpTo(After(log, d), q)), key)
               + On(Writes(cfg, source, caps, After(log, q)), key)
  {
    SortedFilter((e: Entry) => Value(e.lsn) > d, log);
    SplitAt(cfg, source, caps, After(log, d), q, key);
    AfterAfter(log, d, q);
  }

  lemma BacklogSplit(cfg: Config, dbs: Databases, c: Cursors, c': Cursors, source: string, key: Key)
    returns (m: seq<CellOp>)
    requires DistinctTargets(cfg, dbs) && Owns(cfg, dbs, source, key.table) && WellFormed(dbs[source])
    requires AckedPos(c', source) <= AckedPos(c, source)
    ensures On(Backlog(cfg, dbs, c'), key) == m + On(Backlog(cfg, dbs, c), key)
  {
    var caps, log, d, q := dbs[source].captures, dbs[source].log, AckedPos(c', source), AckedPos(c, source);
    m := On(Writes(cfg, source, caps, UpTo(After(log, d), q)), key);
    BacklogOfOwner(cfg, dbs, c, source, key);
    BacklogOfOwner(cfg, dbs, c', source, key);
    SplitBetween(cfg, source, caps, log, d, q, key);
  }

  lemma EarlierCell(p: seq<CellOp>, m: seq<CellOp>, rest: seq<CellOp>, start: Cell, cell: Cell)
    requires RunCell(rest, cell) == RunCell(p + (m + rest), start)
    ensures RunCell(m + rest, cell) == RunCell(p + (m + rest), start)
  {
    assert p + (m + rest) == p + m + rest;
    AgainCell(p, m, rest, start, cell);
    RunCellConcat(m, rest, cell);
  }

  lemma EarlierOwned(cfg: Config, dbs: Databases, c: Cursors, c': Cursors, source: string, key: Key, start: Cell,
                     cell: Cell)
    requires DistinctTargets(cfg, dbs) && Owns(cfg, dbs, source, key.table) && WellFormed(dbs[source])
    requires AckedPos(c', source) <= AckedPos(c, source)
    requires RunCell(On(Backlog(cfg, dbs, c), key), cell) == RunCell(On(Backlog(cfg, dbs, map[]), key), start)
    ensures RunCell(On(Backlog(cfg, dbs, c'), key), cell) == RunCell(On(Backlog(cfg, dbs, map[]), key), start)
  {
    var m := BacklogSplit(cfg, dbs, c, c', source, key);
    FullSplit(cfg, dbs, c', source, key);
    var p := On(Writes(cfg, source, dbs[source].captures, UpTo(dbs[source].log, AckedPos(c', source))), key);
    EarlierCell(p, m, On(Backlog(cfg, dbs, c), key), start, cell);
  }

  // Replay that is right from some cursors is right from all cursors further back.
  lemma {:induction false} EarlierReplays(cfg: Config, dbs: Databases, c: Cursors, c': Cursors, target: DB, initial: DB)
    requires GoodDatabases(cfg, dbs) && Replays(cfg, dbs, c, target, initial)
    requires forall source :: source in dbs ==> AckedPos(c', source) <= AckedPos(c, source)
    ensures Replays(cfg, dbs, c', target, initial)
  {
    forall key: Key
      ensures Lookup(Apply(Backlog(cfg, dbs, c'), target), key) == Lookup(Replicated(cfg, dbs, initial), key)
    {
      Pointwise(Backlog(cfg, dbs, c), target, key);
      Pointwise(Backlog(cfg, dbs, c'), target, key);
      Pointwise(Backlog(cfg, dbs, map[]), initial, key);
      if source :| source in dbs && Owns(cfg, dbs, source, key.table) {
        EarlierOwned(cfg, dbs, c, c', source, key, Lookup(initial, key), Lookup(target, key));
      } else {
        NobodyWrites(cfg, dbs, c, key, 0);
        NobodyWrites(cfg, dbs, c', key, 0);
      }
    }
    SameCellsSameDb(Apply(Backlog(cfg, dbs, c'), target), Replicated(cfg, dbs, initial));
  }

  // ---------- a batch that commits late ----------

  // Of every tracked table the rows are in the log's order.
  predicate TableOrder(cfg: Config, source: string, db: SourceDb, rows: seq<Entry>) {
    && (forall e :: e in rows ==> e in db.log)
    && (forall i :: 0 <= i < |db.captures| && TargetOf(cfg, source, db.captures[i]).Some? ==> Sorted(Of(rows, i)))
  }

  // The writes of one key of such rows: those up to a position, then those beyond it, which are in the log's.
  lemma LateSplit(cfg: Config, dbs: Databases, source: string, rows: seq<Entry>, pos: int, key: Key)
    requires DistinctTargets(cfg, dbs) && Owns(cfg, dbs, source, key.table)
    requires TableOrder(cfg, source, dbs[source], rows)
    ensures On(Writes(cfg, source, dbs[source].captures, rows), key)
            == On(Writes(cfg, source, dbs[source].captures, UpTo(rows, pos)), key)
               + On(Writes(cfg, source, dbs[source].captures, After(rows, pos)), key)
    ensures forall op :: op in On(Writes(cfg, source, dbs[source].captures, After(rows, pos)), key)
                         ==> op in On(Writes(cfg, source, dbs[source].captures, After(dbs[source].log, pos)), key)
  {
    var caps := dbs[source].captures;
    var owner :| 0 <= owner < |caps| && Feeds(cfg, dbs, source, owner, key.table);
    OnlyOwner(cfg, dbs, source, rows, key, owner);
    OnlyOwner(cfg, dbs, source, UpTo(rows, pos), key, owner);
    OnlyOwner(cfg, dbs, source, After(rows, pos), key, owner);
    FilterCommutes((e: Entry) => e.capture == owner, (e: Entry) => Value(e.lsn) <= pos, rows);
    AfterOf(rows, pos, owner);
    SplitAt(cfg, source, caps, Of(rows, owner), pos, key);
    LateRowsRemain(cfg, source, caps, dbs[source].log, rows, pos, key);
  }

  lemma LateRowsRemain(cfg: Config, source: string, caps: seq<Capture>, log: seq<Entry>, rows: seq<Entry>, pos: int,
                       key: Key)
    requires forall e :: e in rows ==> e in log
    ensures forall op :: op in On(Writes(cfg, source, caps, After(rows, pos)), key)
                         ==> op in On(Writes(cfg, source, caps, After(log, pos)), key)
  {
    forall e | e in After(rows, pos)
      ensures e in After(log, pos)
    {
      FilterMember((x: Entry) => Value(x.lsn) > pos, rows, e);
      FilterMember((x: Entry) => Value(x.lsn) > pos, log, e);
    }
    WritesSubset(cfg, source, caps, After(rows, pos), After(log, pos));
    forall op | op in On(Writes(cfg, source, caps, After(rows, pos)), key)
      ensures op in On(Writes(cfg, source, caps, After(log, pos)), key)
    {
      OnMember(Writes(cfg, source, caps, After(rows, pos)), key, op);
      OnMember(Writes(cfg, source, caps, After(log, pos)), key, op);
    }
  }

  lemma PassedAreLast(cfg: Config, source: string, db: SourceDb, pos: int, rows: seq<Entry>, key: Key)
    requires LastPassed(cfg, source, db, pos, rows) && On(Writes(cfg, source, db.captures, rows), key) != []
    ensures IsSuffix(On(Writes(cfg, source, db.captures, UpTo(rows, pos)), key),
                     On(Writes(cfg, source, db.captures, UpTo(db.log, pos)), key))
  {
    var op := On(Writes(cfg, source, db.captures, rows), key)[0];
    OnMember(Writes(cfg, source, db.captures, rows), key, op);
    assert Write(key, op).key == key;
  }

  lemma SuffixSplit<T>(a: seq<T>, b: seq<T>) returns (p: seq<T>)
    requires IsSuffix(a, b)
    ensures b == p + a
  {
    p := b[..|b| - |a|];
  }

  // A batch's writes of a key: some last ones that were passed, then some that are still to come.
  lemma LateOps(cfg: Config, dbs: Databases, c: Cursors, source: string, rows: seq<Entry>, key: Key)
    returns (p: seq<CellOp>, a: seq<CellOp>, b: seq<CellOp>)
    requires DistinctTargets(cfg, dbs) && Owns(cfg, dbs, source, key.table) && WellFormed(dbs[source])
    requires TableOrder(cfg, source, dbs[source], rows)
    requires LastPassed(cfg, source, dbs[source], AckedPos(c, source), rows)
    requires On(Writes(cfg, source, dbs[source].captures, rows), key) != []
    ensures On(Writes(cfg, source, dbs[source].captures, rows), key) == a + b
    ensures On(Writes(cfg, source, dbs[source].captures, UpTo(dbs[source].log, AckedPos(c, source))), key) == p + a
    ensures forall op :: op in b ==> op in On(Backlog(cfg, dbs, c), key)
  {
    var caps, pos := dbs[source].captures, AckedPos(c, source);
    a := On(Writes(cfg, source, caps, UpTo(rows, pos)), key);
    b := On(Writes(cfg, source, caps, After(rows, pos)), key);
    LateSplit(cfg, dbs, source, rows, pos, key);
    PassedAreLast(cfg, source, dbs[source], pos, rows, key);
    p := SuffixSplit(a, On(Writes(cfg, source, caps, UpTo(dbs[source].log, pos)), key));
    BacklogOfOwner(cfg, dbs, c, source, key);
  }

  lemma LateOwned(cfg: Config, dbs: Databases, c: Cursors, source: string, rows: seq<Entry>, key: Key, start: Cell,
                  cell: Cell)
    requires DistinctTargets(cfg, dbs) && Owns(cfg, dbs, source, key.table) && WellFormed(dbs[source])
    requires TableOrder(cfg, source, dbs[source], rows)
    requires LastPassed(cfg, source, dbs[source], AckedPos(c, source), rows)
    requires RunCell(On(Backlog(cfg, dbs, c), key), cell) == RunCell(On(Backlog(cfg, dbs, map[]), key), start)
    ensures RunCell(On(Backlog(cfg, dbs, c), key),
                    RunCell(On(Writes(cfg, source, dbs[source].captures, rows), key), cell))
            == RunCell(On(Backlog(cfg, dbs, map[]), key), start)
  {
    if On(Writes(cfg, source, dbs[source].captures, rows), key) != [] {
      var p, a, b := LateOps(cfg, dbs, c, source, rows, key);
      FullSplit(cfg, dbs, c, source, key);
      LateCell(p, a, b, On(Backlog(cfg, dbs, c), key), start, cell);
    }
  }

  // A batch that commits once more, late, keeps replay right if of none of its keys anything newer was passed.
  lemma {:induction false} LateKeepsReplay(cfg: Config, dbs: Databases, c: Cursors, target: DB, initial: DB,
                                           source: string,
                                           rows: seq<Entry>)
    requires GoodDatabases(cfg, dbs) && source in dbs && Replays(cfg, dbs, c, target, initial)
    requires TableOrder(cfg, source, dbs[source], rows)
    requires LastPassed(cfg, source, dbs[source], AckedPos(c, source), rows)
    ensures Replays(cfg, dbs, c, Apply(Writes(cfg, source, dbs[source].captures, rows), target), initial)
  {
    var ws := Writes(cfg, source, dbs[source].captures, rows);
    forall key: Key
      ensures Lookup(Apply(Backlog(cfg, dbs, c), Apply(ws, target)), key) == Lookup(Replicated(cfg, dbs, initial), key)
    {
      Pointwise(ws, target, key);
      Pointwise(Backlog(cfg, dbs, c), Apply(ws, target), key);
      Pointwise(Backlog(cfg, dbs, c), target, key);
      Pointwise(Backlog(cfg, dbs, map[]), initial, key);
      if Owns(cfg, dbs, source, key.table) {
        LateOwned(cfg, dbs, c, source, rows, key, Lookup(initial, key), Lookup(target, key));
      } else {
        NotOwned(cfg, dbs, source, rows, key);
      }
    }
    SameCellsSameDb(Apply(Backlog(cfg, dbs, c), Apply(ws, target)), Replicated(cfg, dbs, initial));
  }

  // ---------- moving one cursor ----------

  function At(c: Cursors, source: string, lsn: Lsn): Cursors {
    c[source := CursorState([], Some(lsn), [])]
  }

  lemma AtMoves(c: Cursors, source: string, lsn: Lsn)
    ensures Acked(At(c, source, lsn), source) == lsn
    ensures forall s :: s != source ==> Acked(At(c, source, lsn), s) == Acked(c, s)
  {
  }

  // One source's cursor moved back, and then on over some rows that are applied.
  lemma MoveBackAndOn(cfg: Config, dbs: Databases, c: Cursors, target: DB, initial: DB, source: string,
                      from: Lsn, rows: seq<Entry>, to: Lsn)
    requires GoodDatabases(cfg, dbs) && source in dbs && Replays(cfg, dbs, c, target, initial)
    requires Pos(from) <= AckedPos(c, source) && Pos(from) <= Pos(to)
    requires forall i :: 0 <= i < |dbs[source].captures| && TargetOf(cfg, source, dbs[source].captures[i]).Some?
                         ==> Of(rows, i) <= Of(After(dbs[source].log, Pos(from)), i)
    requires Covers(cfg, source, dbs[source], Pos(from), rows, Pos(to))
    ensures Replays(cfg, dbs, At(c, source, to), Apply(Writes(cfg, source, dbs[source].captures, rows), target),
                    initial)
  {
    AtMoves(c, source, from);
    AtMoves(c, source, to);
    EarlierReplays(cfg, dbs, c, At(c, source, from), target, initial);
    AdvanceKeepsReplay(cfg, dbs, At(c, source, from), At(c, source, to), target, initial, source, rows);
  }

  // The same for a batch that commits late.
  lemma MoveBackAndLate(cfg: Config, dbs: Databases, c: Cursors, target: DB, initial: DB, source: string,
                        from: Lsn, rows: seq<Entry>)
    requires GoodDatabases(cfg, dbs) && source in dbs && Replays(cfg, dbs, c, target, initial)
    requires Pos(from) <= AckedPos(c, source)
    requires TableOrder(cfg, source, dbs[source], rows) && LastPassed(cfg, source, dbs[source], Pos(from), rows)
    ensures Replays(cfg, dbs, At(c, source, from), Apply(Writes(cfg, source, dbs[source].captures, rows), target),
                    initial)
  {
    AtMoves(c, source, from);
    EarlierReplays(cfg, dbs, c, At(c, source, from), target, initial);
    LateKeepsReplay(cfg, dbs, At(c, source, from), target, initial, source, rows);
  }
}
