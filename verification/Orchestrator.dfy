// The client's sync cycle, assembled from its parts and the server, as a run of the protocol.
module Orchestrator {
  import opened Common
  import opened Lsn
  import opened Replica
  import opened Mapping
  import opened Source
  import opened Cursors
  import opened Protocol
  import opened Writer
  import opened Server
  import opened Client
  import opened StateFile
  import opened Reader
  import opened Filtering
  import opened Turns

  class SyncOrchestrator {
    const cfg: Config
    const stateManager: StateManager
    const readers: map<string, MSSQLReader>
    const client: StreamingClient
    const tableMappings: Index

    // The state of the whole system between two exchanges.
    ghost function View(): System
      requires stateManager.Valid()
      reads stateManager, stateManager.Repr, readers.Values, client.service.writer
    {
      System(Dbs(), stateManager.Memory(), Load(stateManager.file), client.service.writer.db, Idle, [])
    }

    // The same with what the server has cached.
    ghost function Whole(): Assembly
      requires stateManager.Valid()
      reads stateManager, stateManager.Repr, readers.Values, client.service.writer
    {
      Assembly(View(), client.service.writer.pkCache)
    }

    // What the server would make of some changes now.
    ghost function Applying(ch: Choice, valid: seq<ChangeRequest>): Applied
      reads client.service.writer, valid
    {
      var writer := client.service.writer;
      ApplyAll(writer.target, writer.pkCache, Stamped(Wires(valid), ch.batchId), true, ch.trouble.failAt, writer.db)
    }

    ghost function Dbs(): Databases
      reads readers.Values
    {
      map source | source in readers :: readers[source].db
    }

    // The components are separate objects in good order, the index is the one of the configuration, and
    // the server runs in idempotent mode on tables keyed as the captured ones.
    ghost predicate Valid()
      reads stateManager, stateManager.Repr, readers.Values, client.service.writer
    {
      && stateManager.Valid() && client.service.writer !in stateManager.Repr
      && (forall source :: source in readers ==> readers[source].Valid() && readers[source] !in stateManager.Repr)
      && IndexIsRight()
      && client.service.idempotentWrites && client.service.writer.target.mappings == cfg.mappings
      && KeyedDb(client.service.writer.target, client.service.writer.db)
      && (forall source :: source in readers ==> AllReplicable(source))
    }

    ghost predicate IndexIsRight() {
      forall source, schema, table {:trigger GetTableMapping(tableMappings, source, schema, table)} ::
        GetTableMapping(tableMappings, source, schema, table)
        == Resolve(cfg.sources, cfg.tracked, source, schema, table)
    }

    ghost predicate AllReplicable(source: string)
      requires source in readers
      reads readers[source]
    {
      var db := readers[source].db;
      forall e :: e in db.log ==> Replicable(cfg, client.service.writer.target, source, db.captures, e)
    }

    constructor (cfg: Config, stateManager: StateManager, readers: map<string, MSSQLReader>, client: StreamingClient)
      ensures this.cfg == cfg && this.stateManager == stateManager && this.readers == readers && this.client == client
      ensures IndexIsRight()
    {
      var index := BuildIndex(cfg.sources, cfg.tracked);
      this.cfg, this.stateManager, this.readers, this.client := cfg, stateManager, readers, client;
      tableMappings := index;
    }

    static method Rename(change: ChangeRequest, tt: TrackedTable, ghost others: seq<ChangeRequest>)
      requires change !in others
      modifies change
      ensures change.Wire() == Renamed(old(change.Wire()), tt) && Wires(others) == old(Wires(others))
    {
      change.schemaName := tt.targetSchema;
      change.tableName := tt.targetTable;
    }

    // Keep the tracked changes and give them their target names, in place.
    method FilterChanges(source: string, changes: seq<ChangeRequest>) returns (valid: seq<ChangeRequest>)
      requires IndexIsRight() && Distinct(changes)
      modifies changes
      ensures Wires(valid) == FilterMap(cfg, source, old(Wires(changes)))
      ensures forall c :: c in valid ==> c in changes
    {
      valid := [];
      ghost var wires := Wires(changes);
      for i := 0 to |changes|
        invariant forall c :: c in valid ==> c in changes[..i]
        invariant forall j :: i <= j < |changes| ==> changes[j].Wire() == wires[j]
        invariant Wires(valid) == FilterMap(cfg, source, wires[..i])
      {
        var change := changes[i];
        assert wires[..i + 1] == wires[..i] + [wires[i]];
        FilterMapOne(cfg, source, wires[..i], wires[i]);
        var mapping := GetTableMapping(tableMappings, source, change.schemaName, change.tableName);
        if mapping.Some? {
          Rename(change, mapping.value, valid);
          valid := valid + [change];
        }
      }
      assert wires[..|wires|] == wires;
    }

    // Send a batch's messages and take the answer; the client's own objects stay as they are.
    method Transmit(ch: Choice, valid: seq<ChangeRequest>) returns (r: Result<Ack, ()>)
      requires Valid() && forall c :: c in valid ==> c !in stateManager.Repr
      modifies valid, client.service.writer
      ensures unchanged(stateManager, stateManager.Repr, readers.Values)
      ensures Exchanged(WriterEnv(client.service.writer.target, old(client.service.Stored()), true, [ch.trouble], 1),
                        ch.batchId, Stamped(old(Wires(valid)), ch.batchId), ch.net, client.service.Stored(), r)
    {
      r := client.StreamBatch(ch.batchId, valid, ch.net, ch.trouble);
    }

    // Send a batch and take the answer.
    method Send(source: string, ch: Choice, valid: seq<ChangeRequest>, ghost caps: seq<Capture>, ghost rows: seq<Entry>)
      returns (r: Result<Ack, ()>)
      requires Valid() && forall c :: c in valid ==> c !in stateManager.Repr
      requires Carries(cfg, source, caps, Wires(valid), rows) && rows != []
      requires forall e :: e in rows ==> Replicable(cfg, client.service.writer.target, source, caps, e)
      modifies valid, client.service.writer
      ensures Valid() && Dbs() == old(Dbs())
      ensures client.service.writer.db
              == if Commits(ch.net, old(Applying(ch, valid)))
                 then Apply(Writes(cfg, source, caps, rows), old(client.service.writer.db))
                 else old(client.service.writer.db)
      ensures client.service.writer.pkCache
              == if ch.net.Completes? then old(Applying(ch, valid)).cache else old(client.service.writer.pkCache)
      ensures r.Ok? <==> ch.net.Completes? && ch.net.answered
      ensures r.Ok? ==> Answers(r.value, old(Applying(ch, valid)), LastLsn(rows), ch)
    {
      ghost var before := client.service.Stored();
      ghost var target := client.service.writer.target;
      ghost var applied := Applying(ch, valid);
      ghost var batch := Stamped(Wires(valid), ch.batchId);
      StampedCarries(cfg, source, caps, Wires(valid), rows, ch.batchId);
      r := Transmit(ch, valid);
      ExchangeOfCarried(cfg, target, before, source, caps, batch, rows, ch, client.service.Stored(), r, applied);
    }

    // Act on an acknowledgment: the cursor moves only when it confirms something.
    method Settle(source: string, ch: Choice, ack: Ack) returns (v: Verdict)
      requires Valid()
      modifies stateManager.Repr
      ensures Valid() && fresh(stateManager.Repr - old(stateManager.Repr)) && Dbs() == old(Dbs())
      ensures if ack.status in {AckOk, AckPartial}
              then stateManager.Memory() == UpdateCursor(old(stateManager.Memory()), source, ch.batchId, ack.lsn)
                   && Load(stateManager.file)
                      == (if ch.ackSaved then stateManager.Memory() else old(Load(stateManager.file)))
                   && v == (if ch.ackSaved then Proceed(ack.rowsProcessed) else Fail)
              else stateManager.Memory() == old(stateManager.Memory()) && stateManager.file == old(stateManager.file)
                   && v == if ack.status == AckRetry then Stop else Fail
    {
      match ack.status {
        case AckOk | AckPartial =>
          var ok := stateManager.UpdateCursor(source, ch.batchId, ack.lsn, ch.ackSaved);
          v := if ok then Proceed(ack.rowsProcessed) else Fail;
        case AckRetry => v := Stop;
        case _ => v := Fail;
      }
    }

    method Deliver(source: string, ch: Choice, valid: seq<ChangeRequest>, ghost caps: seq<Capture>,
                   ghost rows: seq<Entry>)
      returns (v: Verdict)
      requires Valid() && IsCategory(ch.trouble.category) && forall c :: c in valid ==> c !in stateManager.Repr
      requires Carries(cfg, source, caps, Wires(valid), rows) && rows != []
      requires forall e :: e in rows ==> Replicable(cfg, client.service.writer.target, source, caps, e)
      modifies valid, stateManager.Repr, client.service.writer
      ensures Valid() && fresh(stateManager.Repr - old(stateManager.Repr))
      ensures v == DeliveryVerdict(ch, old(Applying(ch, valid))) && Dbs() == old(Dbs())
      ensures client.service.writer.db
              == if Commits(ch.net, old(Applying(ch, valid)))
                 then Apply(Writes(cfg, source, caps, rows), old(client.service.writer.db))
                 else old(client.service.writer.db)
      ensures client.service.writer.pkCache
              == if ch.net.Completes? then old(Applying(ch, valid)).cache else old(client.service.writer.pkCache)
      ensures if Commits(ch.net, old(Applying(ch, valid))) && ch.net.answered
              then stateManager.Memory() == UpdateCursor(old(stateManager.Memory()), source, ch.batchId, LastLsn(rows))
                   && Load(stateManager.file)
                      == (if ch.ackSaved then stateManager.Memory() else old(Load(stateManager.file)))
              else stateManager.Memory() == old(stateManager.Memory()) && stateManager.file == old(stateManager.file)
    {
      var r := Send(source, ch, valid, caps, rows);
      assert unchanged(stateManager, stateManager.Repr);
      assert client.service.writer !in stateManager.Repr;
      if r.Ok? {
        v := Settle(source, ch, r.value);
      } else {
        v := Fail;
      }
    }

    // Move a source's cursor, in memory and, if the save works, on disk.
    method MoveCursor(source: string, batchId: string, lsn: Lsn, saved: bool) returns (ok: bool)
      requires Valid()
      modifies stateManager.Repr
      ensures Valid() && fresh(stateManager.Repr - old(stateManager.Repr))
      ensures ok == saved && View() == Save(old(View()), UpdateCursor(old(View()).mem, source, batchId, lsn), saved)
    {
      ok := stateManager.UpdateCursor(source, batchId, lsn, saved);
    }

    method RecordBatch(source: string, batchId: string, lsn: Lsn, valid: seq<ChangeRequest>, saved: bool)
      returns (ok: bool)
      requires Valid() && forall c :: c in valid ==> c !in stateManager.Repr
      modifies stateManager.Repr
      ensures Valid() && fresh(stateManager.Repr - old(stateManager.Repr))
      ensures ok == saved
      ensures View() == Save(old(View()), RecordPendingBatch(old(View()).mem, source, batchId, lsn, |valid|), saved)
      ensures Wires(valid) == old(Wires(valid)) && forall c :: c in valid ==> c !in stateManager.Repr
    {
      ok := stateManager.RecordPendingBatch(source, batchId, lsn, |valid|, saved);
    }

    // The changes to send, and the tracked rows they carry.
    method SelectChanges(source: string, changes: seq<ChangeRequest>, ghost caps: seq<Capture>, ghost rows: seq<Entry>)
      returns (valid: seq<ChangeRequest>)
      requires Valid() && Within(caps, rows) && Wires(changes) == RenderAll(caps, rows) && Distinct(changes)
      requires forall c :: c in changes ==> c !in stateManager.Repr
      modifies changes
      ensures unchanged(stateManager, stateManager.Repr, readers.Values, client.service.writer)
      ensures forall c :: c in valid ==> c in changes
      ensures Wires(valid) == Selection(cfg, source, caps, rows)
      ensures Carries(cfg, source, caps, Wires(valid), Tracked(cfg, source, caps, rows))
    {
      FilteredCarries(cfg, source, caps, rows);
      valid := FilterChanges(source, changes);
      assert unchanged(stateManager, stateManager.Repr, readers.Values, client.service.writer);
    }

    // Where the poll starts: the acknowledged position, else the processed one, else the beginning.
    method FromPosition(source: string) returns (fromPosition: Lsn)
      requires stateManager.Valid()
      ensures fromPosition == PollCursor(stateManager.Memory(), source)
    {
      fromPosition := [];
      var cursor := stateManager.GetCursor(source);
      if cursor.Some? {
        fromPosition := if cursor.value.lastAcked.Some? then cursor.value.lastAcked.value
                        else cursor.value.lastProcessed;
      }
    }

    // Nothing polled: the cursor moves to the end of the log, if there is one.
    method AdvanceEmpty(source: string, ch: Choice, maxLsn: Lsn, ghost p: PollResult) returns (v: Verdict)
      requires Valid() && source in readers && p.entries == [] && maxLsn == p.maxLsn
      modifies stateManager.Repr
      ensures Valid() && fresh(stateManager.Repr - old(stateManager.Repr))
      ensures Prepared(cfg, old(View()), View(), source, ch, p, [], Some(v))
    {
      ghost var s := View();
      v := Proceed(0);
      if |maxLsn| > 0 {
        var ok := MoveCursor(source, "no-changes-" + ch.batchId, maxLsn, ch.saved);
        v := if ok then Proceed(0) else Fail;
      }
      EmptyPrepared(cfg, s, View(), source, ch, p, Some(v));
    }

    // Something polled: the cursor moves past it if none of it is tracked, else a batch is recorded.
    method AdvanceRows(source: string, ch: Choice, valid: seq<ChangeRequest>, lastLsn: Lsn, ghost p: PollResult)
      returns (v: Option<Verdict>)
      requires Valid() && source in readers && p.entries != [] && lastLsn == p.entries[|p.entries| - 1].lsn
      requires var caps := readers[source].db.captures;
               Carries(cfg, source, caps, Wires(valid), Tracked(cfg, source, caps, p.entries))
      requires forall c :: c in valid ==> c !in stateManager.Repr
      modifies stateManager.Repr
      ensures Valid()
      ensures forall o :: o in stateManager.Repr && o !in old(stateManager.Repr) ==> fresh(o)
      ensures Wires(valid) == old(Wires(valid)) && forall c :: c in valid ==> c !in stateManager.Repr
      ensures Prepared(cfg, old(View()), View(), source, ch, p, Wires(valid), v)
    {
      ghost var s := View();
      if |valid| == 0 {
        var ok := MoveCursor(source, "local-skip-" + ch.batchId, lastLsn, ch.saved);
        v := Some(if ok then Proceed(0) else Fail);
        SkipPrepared(cfg, s, View(), source, ch, p, lastLsn, v);
      } else {
        ghost var wires := Wires(valid);
        var ok := RecordBatch(source, ch.batchId, lastLsn, valid, ch.saved);
        v := if ok then None else Some(Fail);
        BatchPrepared(cfg, s, View(), source, ch, p, lastLsn, wires, v);
      }
    }

    method PollReader(source: string, reader: MSSQLReader, ch: Choice, fromPosition: Lsn)
      returns (r: Result<(seq<ChangeRequest>, Lsn), ()>, ghost p: PollResult)
      requires Valid() && source in readers && readers[source] == reader
      requires fromPosition == PollCursor(stateManager.Memory(), source)
      modifies reader`schemaCache
      ensures Valid() && View() == old(View()) && stateManager.Repr == old(stateManager.Repr)
      ensures p == PollOf(cfg, View(), source, ch.faults) && (r.Err? <==> ch.pollFails)
      ensures forall e :: e in Tracked(cfg, source, reader.db.captures, p.entries)
                          ==> Replicable(cfg, client.service.writer.target, source, reader.db.captures, e)
      ensures r.Ok? ==> (forall c :: c in r.value.0 ==> fresh(c) && c !in stateManager.Repr) && Distinct(r.value.0)
      ensures r.Ok?
              ==> Within(reader.db.captures, p.entries) && Wires(r.value.0) == RenderAll(reader.db.captures, p.entries)
                        && r.value.1 == p.maxLsn
    {
      ghost var memory := stateManager.Memory();
      p := Poll(reader.db, fromPosition, cfg.batchSize, ch.faults);
      r := reader.PollChanges(fromPosition, cfg.batchSize, ch.faults, ch.pollFails);
      assert stateManager.Memory() == memory && Dbs() == old(Dbs());
      PolledReplicable(cfg, client.service.writer.target, source, reader.db, p.entries, fromPosition, ch.faults);
    }

    method AdvanceChanges(source: string, ch: Choice, changes: seq<ChangeRequest>, ghost caps: seq<Capture>,
                          ghost p: PollResult)
      returns (v: Option<Verdict>, valid: seq<ChangeRequest>)
      requires Valid() && source in readers && readers[source].db.captures == caps && Within(caps, p.entries)
      requires p.entries != []
      requires Wires(changes) == RenderAll(caps, p.entries) && Distinct(changes)
      requires forall c :: c in changes ==> c !in stateManager.Repr
      modifies changes, stateManager.Repr
      ensures Valid()
      ensures forall o :: o in stateManager.Repr && o !in old(stateManager.Repr) ==> fresh(o)
      ensures forall c :: c in valid ==> c in changes && c !in stateManager.Repr
      ensures Prepared(cfg, old(View()), View(), source, ch, p, Wires(valid), v)
      ensures Wires(valid) == Selection(cfg, source, caps, p.entries)
    {
      RenderLast(caps, p.entries);
      var lastLsn := changes[|changes| - 1].lsn;
      assert lastLsn == Wires(changes)[|changes| - 1].lsn;
      valid := SelectChanges(source, changes, caps, p.entries);
      assert View() == old(View()) && Valid();
      v := AdvanceRows(source, ch, valid, lastLsn, p);
    }

    // Act on what a poll returned.
    method Advance(source: string, ch: Choice, changes: seq<ChangeRequest>, maxLsn: Lsn, ghost caps: seq<Capture>,
                   ghost p: PollResult)
      returns (v: Option<Verdict>, valid: seq<ChangeRequest>)
      requires Valid() && source in readers && readers[source].db.captures == caps && Within(caps, p.entries)
      requires maxLsn == p.maxLsn
      requires Wires(changes) == RenderAll(caps, p.entries) && Distinct(changes)
      requires forall c :: c in changes ==> c !in stateManager.Repr
      requires p == PollOf(cfg, View(), source, ch.faults)
      modifies changes, stateManager.Repr
      ensures Valid() && fresh(stateManager.Repr - old(stateManager.Repr))
      ensures readers[source].db == old(readers[source].db)
      ensures forall c :: c in valid ==> c in changes && c !in stateManager.Repr
      ensures Polled(cfg, old(View()), View(), source, ch, Tracked(cfg, source, caps, p.entries), v)
      ensures v.None? ==> Carries(cfg, source, caps, Wires(valid), Tracked(cfg, source, caps, p.entries))
      ensures v.None? ==> Wires(valid) == Selection(cfg, source, caps, p.entries)
    {
      ghost var s := View();
      if |changes| == 0 {
        var verdict := AdvanceEmpty(source, ch, maxLsn, p);
        v, valid := Some(verdict), [];
      } else {
        v, valid := AdvanceChanges(source, ch, changes, caps, p);
      }
      PreparedIsStep(cfg, s, View(), source, ch, p, Wires(valid), v);
    }

    // Poll a source and act on the result; what remains is to send the batch, if there is one.
    method PollAndAdvance(source: string, reader: MSSQLReader, ch: Choice)
      returns (w: Option<Verdict>, valid: seq<ChangeRequest>, ghost rows: seq<Entry>)
      requires Valid() && source in readers && readers[source] == reader
      modifies stateManager.Repr, reader`schemaCache
      ensures Valid() && fresh(stateManager.Repr - old(stateManager.Repr))
      ensures forall c :: c in valid ==> fresh(c) && c !in stateManager.Repr
      ensures if ch.pollFails then w == Some(Fail) && View() == old(View())
              else Polled(cfg, old(View()), View(), source, ch, rows, w)
      ensures w.None? ==> Carries(cfg, source, reader.db.captures, Wires(valid), rows)
      ensures w.None? ==> Stamped(Wires(valid), ch.batchId) == BatchFor(cfg, old(View()), source, ch)
      ensures w.None?
              ==> forall e :: e in rows ==> Replicable(cfg, client.service.writer.target, source, reader.db.captures, e)
    {
      ghost var s, caps := View(), reader.db.captures;
      var fromPosition := FromPosition(source);
      var r;
      ghost var p;
      r, p := PollReader(source, reader, ch, fromPosition);
      assert unchanged(stateManager, stateManager.Repr);
      if r.Err? {
        return Some(Fail), [], [];
      }
      rows := Tracked(cfg, source, caps, p.entries);
      assert View() == s && p == PollOf(cfg, s, source, ch.faults) && readers[source] !in stateManager.Repr;
      w, valid := Advance(source, ch, r.value.0, r.value.1, caps, p);
    }

    // Send a recorded batch: the events of the exchange.
    method DeliverBatch(source: string, ch: Choice, valid: seq<ChangeRequest>, ghost rows: seq<Entry>)
      returns (v: Verdict)
      requires Valid() && IsCategory(ch.trouble.category) && source in readers
      requires forall c :: c in valid ==> c !in stateManager.Repr
      requires Carries(cfg, source, readers[source].db.captures, Wires(valid), rows) && rows != []
      requires forall e :: e in rows
                           ==> Replicable(cfg, client.service.writer.target, source, readers[source].db.captures, e)
      modifies valid, stateManager.Repr, client.service.writer
      ensures Valid() && fresh(stateManager.Repr - old(stateManager.Repr))
      ensures v == DeliveryVerdict(ch, old(Applying(ch, valid)))
      ensures client.service.writer.pkCache
              == if ch.net.Completes? then old(Applying(ch, valid)).cache else old(client.service.writer.pkCache)
      ensures Run(cfg, old(View()).(phase := InFlight(source, ch.batchId, rows)),
                  DeliveryEvents(ch, Commits(ch.net, old(Applying(ch, valid)))))
              == View()
    {
      ghost var s1, caps, applied := View(), readers[source].db.captures, Applying(ch, valid);
      v := Deliver(source, ch, valid, caps, rows);
      assert View() == s1.(target := View().target, mem := View().mem, disk := View().disk);
      DeliveryIsRun(cfg, s1, View(), source, ch, rows, Commits(ch.net, applied));
    }

    // One source's part of a cycle.
    method SyncSource(source: string, reader: MSSQLReader, ch: Choice) returns (v: Verdict)
      requires Valid() && source in readers && readers[source] == reader && IsCategory(ch.trouble.category)
      modifies stateManager.Repr, reader`schemaCache, client.service.writer
      ensures Valid() && fresh(stateManager.Repr - old(stateManager.Repr))
      ensures Whole() == AfterTurn(cfg, client.service.writer.target, old(Whole()), source, ch)
      ensures v == TurnVerdict(cfg, client.service.writer.target, old(Whole()), source, ch)
    {
      ghost var a, target := Whole(), client.service.writer.target;
      var w, valid;
      ghost var rows;
      w, valid, rows := PollAndAdvance(source, reader, ch);
      if w.Some? {
        v := w.value;
        if ch.pollFails {
          FailedPollIsTurn(cfg, target, a, source, ch);
        } else {
          PolledIsTurn(cfg, target, a, View(), source, ch, rows, v);
        }
      } else {
        ghost var s1, repr, applied := View(), stateManager.Repr, Applying(ch, valid);
        assert applied == Turns.Applying(cfg, target, a, source, ch);
        v := DeliverBatch(source, ch, valid, rows);
        assert fresh(stateManager.Repr - repr);
        DeliveredIsTurn(cfg, target, a, s1, View(), source, ch, rows, applied, client.service.writer.pkCache);
      }
    }

    // The next source's turn; a source without a reader is passed over.
    method TakeTurn(source: string, ch: Choice, total: nat, ghost g: Progressed)
      returns (v: Verdict, ghost g': Progressed)
      requires Valid() && IsCategory(ch.trouble.category)
      requires g.at == Whole() && g.early.None? && g.total == total
      modifies stateManager.Repr, readers.Values, client.service.writer
      ensures Valid() && fresh(stateManager.Repr - old(stateManager.Repr))
      ensures g' == NextTurn(cfg, client.service.writer.target, g, Planned(source, ch)) && Whole() == g'.at
      ensures if v.Proceed? then g'.early.None? && g'.total == total + v.rows else g'.early == Some(Ended(v, total))
    {
      v := Proceed(0);
      if source in readers {
        v := SyncSource(source, readers[source], ch);
      }
      g' := NextTurn(cfg, client.service.writer.target, g, Planned(source, ch));
    }

    // A cycle over all sources that have a reader, up to the first that fails or asks for a retry.
    method SyncCycle(choices: seq<Choice>) returns (r: Result<nat, ()>)
      requires Valid() && |choices| == |cfg.sources| && forall ch :: ch in choices ==> IsCategory(ch.trouble.category)
      modifies stateManager.Repr, readers.Values, client.service.writer
      ensures Valid() && fresh(stateManager.Repr - old(stateManager.Repr))
      ensures var g := Cycled(cfg, client.service.writer.target, old(Whole()), choices);
              Whole() == g.at && r == ResultOf(g) && CycleReturns(cfg, client.service.writer.target, g.turns, r)
    {
      CycleReturnsRows(cfg, client.service.writer.target, Whole(), choices);
      ghost var a, target, plan := Whole(), client.service.writer.target, Plan(cfg.sources, choices);
      var total: nat := 0;
      ghost var g := CycleTo(cfg, target, a, plan, 0);
      for k := 0 to |cfg.sources|
        invariant Valid() && fresh(stateManager.Repr - old(stateManager.Repr))
        invariant g == CycleTo(cfg, target, a, plan, k) && g.at == Whole() && g.early.None? && g.total == total
      {
        ghost var repr, before := stateManager.Repr, g;
        var v;
        v, g := TakeTurn(cfg.sources[k], choices[k], total, before);
        assert fresh(stateManager.Repr - repr);
        OneMoreTurn(cfg, target, a, plan, k, before, g);
        if !v.Proceed? {
          return Ended(v, total);
        }
        total := total + v.rows;
      }
      r := Ok(total);
    }
  }

  // The readers of a client that is started again show the same databases.
  ghost predicate SameSources(o: SyncOrchestrator, readers: map<string, MSSQLReader>)
    reads o.readers.Values, readers.Values
  {
    && readers.Keys == o.readers.Keys
    && forall source :: source in readers ==> readers[source].Valid() && readers[source].db == o.readers[source].db
  }

  lemma RestartedIsValid(o: SyncOrchestrator, again: SyncOrchestrator)
    requires o.Valid() && again.cfg == o.cfg && again.client == o.client && SameSources(o, again.readers)
    requires again.IndexIsRight() && again.stateManager.Valid()
    requires o.client.service.writer !in again.stateManager.Repr
    requires forall source :: source in again.readers ==> again.readers[source] !in again.stateManager.Repr
    ensures again.Valid()
  {
    forall source | source in again.readers
      ensures again.AllReplicable(source)
    {
      assert o.AllReplicable(source);
    }
  }

  lemma RestartedIsCrash(o: SyncOrchestrator, again: SyncOrchestrator)
    requires o.stateManager.Valid() && again.stateManager.Valid()
    requires again.cfg == o.cfg && again.client == o.client && SameSources(o, again.readers)
    requires again.stateManager.file == o.stateManager.file
    requires again.stateManager.Memory() == Load(o.stateManager.file)
    ensures again.Whole() == o.Whole().(sys := Step(o.cfg, o.View(), Crash))
  {
    assert again.Dbs() == o.Dbs();
  }

  // A client that is started again reads its cursors back from the state file: the protocol's crash.
  method Restart(o: SyncOrchestrator, readers: map<string, MSSQLReader>) returns (again: SyncOrchestrator)
    requires o.Valid() && SameSources(o, readers)
    ensures again.Valid() && again.Whole() == o.Whole().(sys := Step(o.cfg, o.View(), Crash))
    ensures again.cfg == o.cfg && again.client == o.client && fresh(again.stateManager.Repr)
  {
    var stateManager := new StateManager(o.stateManager.file);
    again := new SyncOrchestrator(o.cfg, stateManager, readers, o.client);
    RestartedIsValid(o, again);
    RestartedIsCrash(o, again);
  }
}
