// The client's state file: cursors kept in memory, written out after every change, read back at start.
module StateFile {
  import opened Common
  import opened Lsn
  import opened Cursors
  import Bookkeeping = Cursors

  // ---------- the file ----------

  // The JSON documents in the file, LSNs as hexadecimal text.
  datatype PendingDoc = PendingDoc(batchId: string, lsn: string, sequenceCount: nat)

  datatype CursorDoc = CursorDoc(lastProcessedLsn: string, lastAckedLsn: Option<string>,
                                 pendingBatches: seq<PendingDoc>)

  // No file; a file that is no JSON object of the expected shape; one document per source; or the single
  // document older versions wrote, with or without a time stamp.
  datatype FileContent =
    | Missing
    | Garbage
    | PerSource(docs: map<string, CursorDoc>)
    | Legacy(doc: CursorDoc, stamped: bool)

  function EncodePending(b: PendingBatch): PendingDoc {
    PendingDoc(b.batchId, ToHexString(b.lsn), b.sequenceCount)
  }

  function EncodeCursor(c: CursorState): CursorDoc {
    CursorDoc(ToHexString(c.lastProcessed),
              if c.lastAcked.Some? then Some(ToHexString(c.lastAcked.value)) else None,
              seq(|c.pending|, i requires 0 <= i < |c.pending| => EncodePending(c.pending[i])))
  }

  function Encode(cursors: Cursors): FileContent {
    PerSource(map source | source in cursors :: EncodeCursor(cursors[source]))
  }

  function DecodePending(docs: seq<PendingDoc>): Option<seq<PendingBatch>> {
    if docs == [] then Some([])
    else
      match (LsnFromHexString(docs[0].lsn), DecodePending(docs[1..]))
      case (Some(lsn), Some(rest)) => Some([PendingBatch(docs[0].batchId, lsn, docs[0].sequenceCount)] + rest)
      case _ => None
  }

  function DecodeCursor(doc: CursorDoc): Option<CursorState> {
    var acked := if doc.lastAckedLsn.Some? then LsnFromHexString(doc.lastAckedLsn.value) else None;
    match (LsnFromHexString(doc.lastProcessedLsn), DecodePending(doc.pendingBatches))
    case (Some(processed), Some(pending)) =>
      if doc.lastAckedLsn.Some? && acked.None? then None else Some(CursorState(processed, acked, pending))
    case _ => None
  }

  predicate Readable(docs: map<string, CursorDoc>) {
    forall source :: source in docs ==> DecodeCursor(docs[source]).Some?
  }

  // What a start finds in the file. An unreadable file counts as none; a legacy cursor becomes that of the
  // source "default".
  function Load(file: FileContent): Cursors {
    match file
    case PerSource(docs) =>
      if Readable(docs) then map source | source in docs :: DecodeCursor(docs[source]).value else map[]
    case Legacy(doc, stamped) =>
      if stamped && DecodeCursor(doc).Some? then map["default" := DecodeCursor(doc).value] else map[]
    case Missing | Garbage => map[]
  }

  lemma {:induction false} PendingRoundTrip(docs: seq<PendingDoc>, pending: seq<PendingBatch>)
    requires |docs| == |pending| && forall i :: 0 <= i < |docs| ==> docs[i] == EncodePending(pending[i])
    ensures DecodePending(docs) == Some(pending)
  {
    if docs != [] {
      PendingRoundTrip(docs[1..], pending[1..]);
      HexRoundTrip(pending[0].lsn);
      assert pending == [pending[0]] + pending[1..];
    }
  }

  lemma CursorRoundTrip(c: CursorState)
    ensures DecodeCursor(EncodeCursor(c)) == Some(c)
  {
    PendingRoundTrip(EncodeCursor(c).pendingBatches, c.pending);
    HexRoundTrip(c.lastProcessed);
    if c.lastAcked.Some? { HexRoundTrip(c.lastAcked.value); }
  }

  // What was written out is what a restart reads back, for every source and every field.
  lemma {:induction false} LoadEncode(cursors: Cursors)
    ensures Load(Encode(cursors)) == cursors
  {
    var docs := Encode(cursors).docs;
    forall source | source in docs
      ensures DecodeCursor(docs[source]) == Some(cursors[source])
    {
      CursorRoundTrip(cursors[source]);
    }
  }

  // The single cursor older versions wrote is that of the source "default" if it bears a time stamp; without one, as
  // without a readable file, a start has no cursors, and one unreadable cursor makes the file unreadable.
  lemma OtherFiles(c: CursorState, doc: CursorDoc, docs: map<string, CursorDoc>)
    ensures Load(Legacy(EncodeCursor(c), true)) == map["default" := c]
    ensures Load(Legacy(doc, false)) == Load(Missing) == Load(Garbage) == map[]
    ensures (exists source :: source in docs && LsnFromHexString(docs[source].lastProcessedLsn) == None)
            ==> Load(PerSource(docs)) == map[]
  {
    CursorRoundTrip(c);
  }

  // ---------- the state manager ----------

  // The cursor of one source, updated in place.
  class CdcCursorState {
    var lastProcessedLsn: Lsn
    var lastAckedLsn: Option<Lsn>
    var pendingBatches: seq<PendingBatch>

    constructor (lastProcessedLsn: Lsn, lastAckedLsn: Option<Lsn>, pendingBatches: seq<PendingBatch>)
      ensures Value() == CursorState(lastProcessedLsn, lastAckedLsn, pendingBatches)
    {
      this.lastProcessedLsn, this.lastAckedLsn, this.pendingBatches := lastProcessedLsn, lastAckedLsn, pendingBatches;
    }

    function Value(): CursorState
      reads this
    {
      CursorState(lastProcessedLsn, lastAckedLsn, pendingBatches)
    }
  }

  // A source without a cursor gets one that nothing acknowledged yet.
  function Started(m: Cursors, source: string, lsn: Lsn): Cursors {
    if source in m then m else m[source := CursorState(lsn, None, [])]
  }

  lemma UpdateStarted(m: Cursors, source: string, batchId: string, lsn: Lsn)
    ensures var started := Started(m, source, lsn);
            UpdateCursor(m, source, batchId, lsn)
            == started[source := CursorState(lsn, Some(lsn), Remove(started[source].pending, batchId))]
  {
  }

  lemma RecordStarted(m: Cursors, source: string, batchId: string, lsn: Lsn, count: nat)
    ensures var started := Started(m, source, lsn);
            RecordPendingBatch(m, source, batchId, lsn, count)
            == started[source := started[source].(pending := started[source].pending
                                                             + [PendingBatch(batchId, lsn, count)])]
  {
  }

  class StateManager {
    var state: map<string, CdcCursorState>
    var file: FileContent
    ghost var Repr: set<object>

    // Different sources have different cursor objects.
    ghost predicate Valid()
      reads this, Repr
      ensures Valid() ==> this in Repr
    {
      && this in Repr
      && (forall s :: s in state ==> state[s] in Repr)
      && (forall s, s' :: s in state && s' in state && s != s' ==> state[s] != state[s'])
    }

    ghost function Memory(): Cursors
      requires Valid()
      reads this, Repr
    {
      map source | source in state :: state[source].Value()
    }

    constructor (file: FileContent)
      ensures Valid() && fresh(Repr) && this.file == file && Memory() == Load(file)
    {
      this.file := file;
      state := map[];
      Repr := {this};
      new;
      Fill(Load(file));
    }

    method Fill(cursors: Cursors)
      requires Valid() && Memory() == map[]
      modifies this`state, this`Repr
      ensures Valid() && fresh(Repr - old(Repr)) && Memory() == cursors
    {
      var left := cursors.Keys;
      while left != {}
        invariant Valid() && fresh(Repr - old(Repr)) && left <= cursors.Keys
        invariant Memory() == cursors - left
        decreases left
      {
        var source :| source in left;
        assert source !in Memory();
        var entry := Insert(source, cursors[source]);
        left := left - {source};
      }
    }

    method Insert(source: string, c: CursorState) returns (entry: CdcCursorState)
      requires Valid() && source !in state
      modifies this`state, this`Repr
      ensures Valid() && fresh(Repr - old(Repr)) && source in state && state[source] == entry
      ensures Memory() == old(Memory())[source := c]
    {
      entry := new CdcCursorState(c.lastProcessed, c.lastAcked, c.pending);
      state := state[source := entry];
      Repr := Repr + {entry};
    }

    // A copy; what happens to the cursor later does not show in it.
    method GetCursor(source: string) returns (cursor: Option<CursorState>)
      requires Valid()
      ensures cursor == if source in Memory() then Some(Memory()[source]) else None
    {
      if source !in state {
        return None;
      }
      cursor := Some(state[source].Value());
    }

    // Written to a temporary file and renamed over the old one: the file is the new one or the old one.
    method PersistState(saved: bool) returns (ok: bool)
      requires Valid()
      modifies this`file
      ensures Valid() && Memory() == old(Memory())
      ensures ok == saved && (if saved then Load(file) == Memory() else file == old(file))
    {
      if saved {
        var cursors := map source | source in state :: state[source].Value();
        file := Encode(cursors);
        LoadEncode(cursors);
      }
      ok := saved;
    }

    // The cursor object of a source, made if there is none yet.
    method CursorOf(source: string, lsn: Lsn) returns (current: CdcCursorState)
      requires Valid()
      modifies this`state, this`Repr
      ensures Valid() && fresh(Repr - old(Repr)) && source in state && state[source] == current
      ensures Memory() == Started(old(Memory()), source, lsn)
    {
      if source in state {
        current := state[source];
      } else {
        current := Insert(source, CursorState(lsn, None, []));
      }
    }

    // The fields of one cursor change in place; the other sources do not notice.
    method Assign(source: string, lastProcessedLsn: Lsn, lastAckedLsn: Option<Lsn>, pendingBatches: seq<PendingBatch>)
      requires Valid() && source in state
      modifies state[source]
      ensures Valid()
      ensures Memory() == old(Memory())[source := CursorState(lastProcessedLsn, lastAckedLsn, pendingBatches)]
    {
      var current := state[source];
      current.pendingBatches := pendingBatches;
      current.lastAckedLsn := lastAckedLsn;
      current.lastProcessedLsn := lastProcessedLsn;
    }

    static method WithoutBatch(pending: seq<PendingBatch>, batchId: string) returns (newPending: seq<PendingBatch>)
      ensures newPending == Remove(pending, batchId)
    {
      newPending := [];
      for i := 0 to |pending|
        invariant Remove(pending, batchId) == newPending + Remove(pending[i..], batchId)
      {
        assert pending[i..][1..] == pending[i + 1..];
        if pending[i].batchId != batchId {
          newPending := newPending + [pending[i]];
        }
      }
    }

    method UpdateCursor(source: string, batchId: string, newLsn: Lsn, saved: bool) returns (ok: bool)
      requires Valid()
      modifies Repr
      ensures Valid() && fresh(Repr - old(Repr))
      ensures Memory() == Bookkeeping.UpdateCursor(old(Memory()), source, batchId, newLsn)
      ensures ok == saved && (if saved then Load(file) == Memory() else file == old(file))
    {
      var current := CursorOf(source, newLsn);
      UpdateStarted(old(Memory()), source, batchId, newLsn);
      assert current.Value() == Memory()[source];
      var newPending := WithoutBatch(current.pendingBatches, batchId);
      Assign(source, newLsn, Some(newLsn), newPending);
      ok := PersistState(saved);
    }

    method RecordPendingBatch(source: string, batchId: string, lsn: Lsn, sequenceCount: nat, saved: bool)
      returns (ok: bool)
      requires Valid()
      modifies Repr
      ensures Valid() && fresh(Repr - old(Repr))
      ensures Memory() == Bookkeeping.RecordPendingBatch(old(Memory()), source, batchId, lsn, sequenceCount)
      ensures ok == saved && (if saved then Load(file) == Memory() else file == old(file))
    {
      var current := CursorOf(source, lsn);
      RecordStarted(old(Memory()), source, batchId, lsn, sequenceCount);
      assert current.Value() == Memory()[source];
      var pending := current.pendingBatches + [PendingBatch(batchId, lsn, sequenceCount)];
      Assign(source, current.lastProcessedLsn, current.lastAckedLsn, pending);
      ok := PersistState(saved);
    }

    // The sources with batches on their way, each with all of them in record order.
    method GetPendingBatches() returns (result: map<string, seq<PendingBatch>>)
      requires Valid()
      ensures result == map source | source in Memory() && Memory()[source].pending != [] :: Memory()[source].pending
    {
      result := map[];
      var left := state.Keys;
      while left != {}
        invariant left <= state.Keys
        invariant result
                  == map source | source in state && source !in left && state[source].pendingBatches != []
                     :: state[source].pendingBatches
        decreases left
      {
        var source :| source in left;
        if |state[source].pendingBatches| > 0 {
          result := result[source := state[source].pendingBatches];
        }
        left := left - {source};
      }
    }
  }
}
