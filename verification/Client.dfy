// The streaming client: one batch per stream, one acknowledgment read.
module Client {
  import opened Common
  import opened Lsn
  import opened Source
  import opened Replica
  import opened Changes
  import opened Server

  // A change request as the reader allocates it; mapping and sending rewrite three of its fields in place.
  class ChangeRequest {
    var batchId: string
    var schemaName: string
    var tableName: string
    const lsn: Lsn
    const sequenceNumber: nat
    const operation: Operation
    const primaryKey: Option<Row>
    const rowData: Option<Row>
    const columns: seq<ColumnMeta>

    constructor (lsn: Lsn, sequenceNumber: nat, operation: Operation, schemaName: string, tableName: string,
                 primaryKey: Row, rowData: Row, columns: seq<ColumnMeta>)
      ensures Wire()
              == Change("", lsn, sequenceNumber, operation, schemaName, tableName, Some(primaryKey), Some(rowData),
                        columns)
    {
      batchId := "";
      this.lsn, this.sequenceNumber, this.operation := lsn, sequenceNumber, operation;
      this.schemaName, this.tableName := schemaName, tableName;
      this.primaryKey, this.rowData, this.columns := Some(primaryKey), Some(rowData), columns;
    }

    // The message that goes over the wire.
    function Wire(): Change
      reads this
    {
      Change(batchId, lsn, sequenceNumber, operation, schemaName, tableName, primaryKey, rowData, columns)
    }
  }

  function Wires(changes: seq<ChangeRequest>): seq<Change>
    reads changes
  {
    seq(|changes|, i requires 0 <= i < |changes| reads changes => changes[i].Wire())
  }

  function Stamped(changes: seq<Change>, batchId: string): seq<Change> {
    seq(|changes|, i requires 0 <= i < |changes| => changes[i].(batchId := batchId))
  }

  // What the network does to one exchange: no stream at all; a stream that breaks after some changes;
  // or a complete stream whose answer arrives or not.
  datatype Net = CannotStart | BreaksAfter(sent: nat) | Completes(answered: bool)

  // What the exchange of one batch leaves stored and what the client learns of it.
  predicate Exchanged(env: Env, batchId: string, changes: seq<Change>, net: Net, stored: Store, r: Result<Ack, ()>) {
    if net.Completes? && changes != [] then
      var a := env.apply(env.before, changes, 0);
      && stored == Committed(env.before, a)
      && r == if net.answered
              then Ok(MakeAck(batchId, LastLsnOf(changes), changes[|changes| - 1].sequenceNumber, a, env.category(0)))
              else Err(())
    else
      stored == env.before && r.Err?
  }

  // A stream that carries one batch id is one run.
  lemma OneIdOneRun(stream: seq<Change>, batchId: string)
    requires forall c :: c in stream ==> c.batchId == batchId
    ensures Runs(stream) == if stream == [] then [] else [stream]
  {
    if stream != [] {
      assert OneBatch(stream) && Maximal([stream]);
      assert [stream][..0] == [] && Flatten([stream]) == Flatten([]) + stream == stream;
      RunsUnique([stream]);
    }
  }

  // A broken stream of one batch applies nothing, however much of it arrived.
  lemma BrokenAppliesNothing(env: Env, stream: seq<Change>, batchId: string, stored: Store, acks: seq<Ack>, ok: bool)
    requires forall c :: c in stream ==> c.batchId == batchId
    requires StreamServed(env, stream, Broken, stored, acks, ok)
    ensures stored == env.before && acks == []
  {
    OneIdOneRun(stream, batchId);
  }

  lemma EmptyAppliesNothing(env: Env, stored: Store, acks: seq<Ack>, ok: bool)
    requires StreamServed(env, [], Eof, stored, acks, ok)
    ensures stored == env.before && acks == []
  {
    OneIdOneRun([], "");
  }

  lemma OneRunServed(env: Env, stream: seq<Change>, stored: Store, acks: seq<Ack>, ok: bool)
    requires Runs(stream) == [stream] && StreamServed(env, stream, Eof, stored, acks, ok)
    ensures OneBatch(stream) || acks == []
    ensures stored == ServeUpTo(env, [stream], 1)
    ensures acks == if env.sendable == 0 || !OneBatch(stream) then [] else [AckOf(env, [stream], 0)]
  {
  }

  lemma OneRunMeans(env: Env, stream: seq<Change>)
    requires OneBatch(stream)
    ensures var a := env.apply(env.before, stream, 0);
            && ServeUpTo(env, [stream], 1) == Committed(env.before, a)
            && AckOf(env, [stream], 0)
               == MakeAck(stream[0].batchId, LastLsnOf(stream), stream[|stream| - 1].sequenceNumber, a, env.category(0))
  {
    assert ServeUpTo(env, [stream], 0) == env.before;
    assert [stream][..1] == [stream] && [stream][..0] == [] && Flatten([stream]) == Flatten([]) + stream == stream;
  }

  // A complete stream of one non-empty batch applies it once and is answered by the one acknowledgment
  // it gives rise to, if any can be sent.
  lemma CompleteAppliesOnce(env: Env, stream: seq<Change>, batchId: string, stored: Store, acks: seq<Ack>, ok: bool)
    requires forall c :: c in stream ==> c.batchId == batchId
    requires stream != [] && StreamServed(env, stream, Eof, stored, acks, ok)
    ensures var a := env.apply(env.before, stream, 0);
            && stored == Committed(env.before, a)
            && acks == if env.sendable == 0 then []
                       else [MakeAck(batchId, LastLsnOf(stream), stream[|stream| - 1].sequenceNumber, a,
                                     env.category(0))]
  {
    OneIdOneRun(stream, batchId);
    OneRunServed(env, stream, stored, acks, ok);
    OneRunMeans(env, stream);
  }

  // An acknowledgment says OK exactly when the whole batch committed, and never PARTIAL.
  lemma OkMeansCommitted(env: Env, batchId: string, changes: seq<Change>, net: Net, stored: Store, ack: Ack)
    requires Exchanged(env, batchId, changes, net, stored, Ok(ack)) && IsCategory(env.category(0))
    ensures ack.batchId == batchId && ack.lsn == LastLsnOf(changes)
    ensures changes != [] && ack.lastSequenceNumber == changes[|changes| - 1].sequenceNumber
    ensures ack.status in {AckOk, AckRetry, AckFailed, AckSchemaMismatch}
    ensures ack.status == AckOk <==> env.apply(env.before, changes, 0).result.Ok?
    ensures ack.status == AckOk ==> Ok((stored.db, ack.rowsProcessed)) == env.apply(env.before, changes, 0).result
    ensures ack.status != AckOk ==> stored.db == env.before.db && ack.rowsProcessed == 0
  {
  }

  class StreamingClient {
    const service: CdcSyncService

    constructor (service: CdcSyncService)
      ensures this.service == service
    {
      this.service := service;
    }

    // Send a batch's messages, close the stream and take the first acknowledgment.
    method Exchange(batchId: string, stream: seq<Change>, net: Net, trouble: Trouble) returns (r: Result<Ack, ()>)
      requires forall c :: c in stream ==> c.batchId == batchId
      modifies service.writer
      ensures Exchanged(old(service.Before([trouble], 1)), batchId, stream, net, service.Stored(), r)
    {
      ghost var env := service.Before([trouble], 1);
      if net.CannotStart? {
        return Err(());
      }
      if net.BreaksAfter? {
        var part := if net.sent <= |stream| then stream[..net.sent] else stream;
        var acks, ok := service.StreamChanges(part, Broken, 1, [trouble]);
        BrokenAppliesNothing(env, part, batchId, service.Stored(), acks, ok);
        return Err(());
      }
      var acks, ok := service.StreamChanges(stream, Eof, 1, [trouble]);
      if stream == [] {
        EmptyAppliesNothing(env, service.Stored(), acks, ok);
      } else {
        CompleteAppliesOnce(env, stream, batchId, service.Stored(), acks, ok);
      }
      r := if |acks| > 0 && net.answered then Ok(acks[0]) else Err(());
    }

    // Every change is stamped with the batch id, in place, before anything is sent.
    method StreamBatch(batchId: string, changes: seq<ChangeRequest>, net: Net, trouble: Trouble)
      returns (r: Result<Ack, ()>)
      modifies changes, service.writer
      ensures Wires(changes) == Stamped(old(Wires(changes)), batchId)
      ensures Exchanged(old(service.Before([trouble], 1)), batchId, Wires(changes), net, service.Stored(), r)
    {
      for i := 0 to |changes|
        invariant forall j :: 0 <= j < |changes| ==>
                    || changes[j].Wire() == old(changes[j].Wire())
                    || changes[j].Wire() == old(changes[j].Wire()).(batchId := batchId)
        invariant forall j :: 0 <= j < i ==> changes[j].Wire() == old(changes[j].Wire()).(batchId := batchId)
        invariant service.Stored() == old(service.Stored())
      {
        changes[i].batchId := batchId;
      }
      assert Wires(changes) == Stamped(old(Wires(changes)), batchId);
      r := Exchange(batchId, Wires(changes), net, trouble);
    }
  }
}
