// The client's bookkeeping per source: how far the log was acknowledged and which batches wait.
module Cursors {
  import opened Common
  import opened Lsn
  import opened Source
  import opened Sequences

  datatype PendingBatch = PendingBatch(batchId: string, lsn: Lsn, sequenceCount: nat)

  datatype CursorState = CursorState(lastProcessed: Lsn, lastAcked: Option<Lsn>, pending: seq<PendingBatch>)

  type Cursors = map<string, CursorState>

  // The position the next poll starts behind: the acknowledged one if there is one.
  function PollCursor(cursors: Cursors, source: string): Lsn {
    if source !in cursors then []
    else if cursors[source].lastAcked.Some? then cursors[source].lastAcked.value
    else cursors[source].lastProcessed
  }

  // The position the server confirmed; [] if it never confirmed any.
  function Acked(cursors: Cursors, source: string): Lsn {
    if source in cursors && cursors[source].lastAcked.Some? then cursors[source].lastAcked.value else []
  }

  function AckedPos(cursors: Cursors, source: string): int {
    Pos(Acked(cursors, source))
  }

  function Remove(pending: seq<PendingBatch>, batchId: string): seq<PendingBatch> {
    Filter((b: PendingBatch) => b.batchId != batchId, pending)
  }

  function PendingOf(cursors: Cursors, source: string): seq<PendingBatch> {
    if source in cursors then cursors[source].pending else []
  }

  function UpdateCursor(cursors: Cursors, source: string, batchId: string, lsn: Lsn): Cursors {
    cursors[source := CursorState(lsn, Some(lsn), Remove(PendingOf(cursors, source), batchId))]
  }

  function RecordPendingBatch(cursors: Cursors, source: string, batchId: string, lsn: Lsn, count: nat): Cursors {
    var prior := if source in cursors then cursors[source] else CursorState(lsn, None, []);
    cursors[source := prior.(pending := prior.pending + [PendingBatch(batchId, lsn, count)])]
  }

  // Recording a batch leaves the position of the next poll alone if and only if the source already
  // has an entry. The first batch of a source moves it onto its own, still unsent, last row.
  lemma RecordKeepsPollCursorIff(cursors: Cursors, source: string, batchId: string, lsn: Lsn, count: nat)
    requires lsn != []
    ensures var after := RecordPendingBatch(cursors, source, batchId, lsn, count);
            && (PollCursor(after, source) == PollCursor(cursors, source) <==>
                source in cursors || PollCursor(cursors, source) == lsn)
            && Acked(after, source) == Acked(cursors, source)
            && (source !in cursors ==> PollCursor(after, source) == lsn)
  {
  }

  // ---------- histories of calls ----------

  datatype Call =
    | Record(source: string, batch: PendingBatch)
    | Update(source: string, batchId: string, lsn: Lsn)

  function Perform(cursors: Cursors, call: Call): Cursors {
    match call
    case Record(source, b) => RecordPendingBatch(cursors, source, b.batchId, b.lsn, b.sequenceCount)
    case Update(source, batchId, lsn) => UpdateCursor(cursors, source, batchId, lsn)
  }

  function PerformAll(cursors: Cursors, calls: seq<Call>): Cursors {
    if calls == [] then cursors else Perform(PerformAll(cursors, calls[..|calls| - 1]), calls[|calls| - 1])
  }

  predicate UpdatedIn(calls: seq<Call>, source: string, batchId: string) {
    exists c :: c in calls && c.Update? && c.source == source && c.batchId == batchId
  }

  // The batches a source recorded and did not pass to UpdateCursor afterwards, in record order.
  function Outstanding(calls: seq<Call>, source: string): seq<PendingBatch> {
    if calls == [] then []
    else if calls[0].Record? && calls[0].source == source && !UpdatedIn(calls[1..], source, calls[0].batch.batchId)
    then [calls[0].batch] + Outstanding(calls[1..], source)
    else Outstanding(calls[1..], source)
  }

  lemma {:induction false} OutstandingSnoc(calls: seq<Call>, call: Call, source: string)
    ensures Outstanding(calls + [call], source) ==
            if call.source != source then Outstanding(calls, source)
            else if call.Update? then Remove(Outstanding(calls, source), call.batchId)
            else Outstanding(calls, source) + [call.batch]
  {
    if calls == [] {
      assert calls + [call] == [call];
      assert [call][1..] == [];
    } else {
      var rest := calls[1..];
      assert (calls + [call])[1..] == rest + [call];
      OutstandingSnoc(rest, call, source);
      if calls[0].Record? && calls[0].source == source {
        var id := calls[0].batch.batchId;
        assert UpdatedIn(rest + [call], source, id) <==>
               UpdatedIn(rest, source, id) || (call.Update? && call.source == source && call.batchId == id) by {
          if UpdatedIn(rest, source, id) {
            var c :| c in rest && c.Update? && c.source == source && c.batchId == id;
            assert c in rest + [call];
          }
        }
        var out := Outstanding(rest, source);
        assert ([calls[0].batch] + out)[1..] == out;
      }
    }
  }

  // After any history of calls, a source's pending list is exactly its outstanding batches.
  lemma {:induction false} PendingConservation(calls: seq<Call>, source: string)
    ensures PendingOf(PerformAll(map[], calls), source) == Outstanding(calls, source)
  {
    if calls != [] {
      var n := |calls| - 1;
      PendingConservation(calls[..n], source);
      assert calls == calls[..n] + [calls[n]];
      OutstandingSnoc(calls[..n], calls[n], source);
    }
  }

  // An identifier no batch was recorded under removes nothing (the "no-changes-" and "local-skip-" ids).
  lemma DummyIdRemovesNothing(pending: seq<PendingBatch>, batchId: string)
    requires forall b :: b in pending ==> b.batchId != batchId
    ensures Remove(pending, batchId) == pending
  {
    FilterAll((b: PendingBatch) => b.batchId != batchId, pending);
  }

  // After any history of calls, a source stands where its last update put it.
  lemma {:induction false} LastUpdateDecides(calls: seq<Call>, source: string, i: nat)
    requires i < |calls| && calls[i].Update? && calls[i].source == source
    requires forall j :: i < j < |calls| ==> !(calls[j].Update? && calls[j].source == source)
    ensures var after := PerformAll(map[], calls);
            && source in after && after[source].lastAcked == Some(calls[i].lsn)
            && after[source].lastProcessed == calls[i].lsn
    decreases |calls|
  {
    if i < |calls| - 1 {
      LastUpdateDecides(calls[..|calls| - 1], source, i);
    }
  }

  // Without one it has a cursor exactly if a batch was recorded, at that of the first one, and nothing is acknowledged.
  lemma {:induction false} FirstRecordDecides(calls: seq<Call>, source: string, i: nat)
    requires i <= |calls| && forall c :: c in calls ==> !(c.Update? && c.source == source)
    requires forall j :: 0 <= j < i ==> calls[j].source != source
    requires i < |calls| ==> calls[i].source == source
    ensures var after := PerformAll(map[], calls);
            if i == |calls| then source !in after
            else && calls[i].Record? && source in after && after[source].lastAcked == None
                 && after[source].lastProcessed == calls[i].batch.lsn
    decreases |calls|
  {
    if calls != [] {
      var n := |calls| - 1;
      assert calls[n] in calls && forall c :: c in calls[..n] ==> c in calls;
      assert i < |calls| ==> calls[i] in calls;
      FirstRecordDecides(calls[..n], source, if i <= n then i else n);
    }
  }
}
