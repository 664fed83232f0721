// The server: a stream of changes cut into batches, each applied in one transaction and acknowledged.
module Server {
  import opened Common
  import opened Lsn
  import opened Replica
  import opened Changes
  import opened Writer

  datatype AckStatus = AckUnspecified | AckOk | AckPartial | AckRetry | AckFailed | AckSchemaMismatch

  datatype Ack = Ack(batchId: string, lsn: Lsn, lastSequenceNumber: nat, status: AckStatus, rowsProcessed: nat)

  // How a batch goes wrong, if it does: where the connection to the database drops, and the status its
  // error text is classified as.
  datatype Trouble = Trouble(failAt: Option<Failure>, category: AckStatus)

  predicate IsCategory(s: AckStatus) {
    s in {AckRetry, AckFailed, AckSchemaMismatch}
  }

  function TroubleAt(troubles: seq<Trouble>, k: nat): Trouble {
    if k < |troubles| then troubles[k] else Trouble(None, AckFailed)
  }

  // ---------- maximal runs of equal batch ids ----------

  function Runs(stream: seq<Change>): seq<seq<Change>> {
    if stream == [] then []
    else
      var n := |stream| - 1;
      Extend(Runs(stream[..n]), stream[n])
  }

  function Flatten<T>(parts: seq<seq<T>>): seq<T> {
    if parts == [] then [] else Flatten(parts[..|parts| - 1]) + parts[|parts| - 1]
  }

  predicate OneBatch(part: seq<Change>) {
    part != [] && forall c :: c in part ==> c.batchId == part[0].batchId
  }

  // A division into non-empty single-batch parts, neighbours of different batches.
  predicate Maximal(parts: seq<seq<Change>>) {
    && (forall k :: 0 <= k < |parts| ==> OneBatch(parts[k]))
    && (forall k :: 0 <= k < |parts| - 1 ==> parts[k][0].batchId != parts[k + 1][0].batchId)
  }

  lemma FlattenSnoc<T>(parts: seq<seq<T>>, last: seq<T>)
    ensures Flatten(parts + [last]) == Flatten(parts) + last
  {
    assert (parts + [last])[..|parts|] == parts;
  }

  // Another change of the batch of the last part joins it; one of another batch opens a new part.
  function Extend(parts: seq<seq<Change>>, c: Change): seq<seq<Change>> {
    var m := |parts| - 1;
    if parts != [] && parts[m] != [] && parts[m][0].batchId == c.batchId then parts[..m] + [parts[m] + [c]]
    else parts + [[c]]
  }

  lemma RunsStep(stream: seq<Change>, c: Change)
    ensures Runs(stream + [c]) == Extend(Runs(stream), c)
  {
    assert (stream + [c])[..|stream|] == stream;
  }

  lemma ExtendMaximal(parts: seq<seq<Change>>, c: Change)
    requires Maximal(parts)
    ensures Maximal(Extend(parts, c)) && Flatten(Extend(parts, c)) == Flatten(parts) + [c]
  {
    FlattenSnoc(parts, [c]);
    assert OneBatch([c]);
    if parts != [] {
      var m := |parts| - 1;
      assert parts == parts[..m] + [parts[m]] && OneBatch(parts[m]);
      FlattenSnoc(parts[..m], parts[m]);
      FlattenSnoc(parts[..m], parts[m] + [c]);
      if parts[m][0].batchId == c.batchId {
        assert OneBatch(parts[m] + [c]);
        assert Flatten(parts[..m]) + (parts[m] + [c]) == (Flatten(parts[..m]) + parts[m]) + [c];
      }
    }
  }

  lemma {:induction false} RunsAreMaximal(stream: seq<Change>)
    ensures Flatten(Runs(stream)) == stream && Maximal(Runs(stream))
  {
    if stream != [] {
      var n := |stream| - 1;
      assert stream == stream[..n] + [stream[n]];
      RunsAreMaximal(stream[..n]);
      RunsStep(stream[..n], stream[n]);
      ExtendMaximal(Runs(stream[..n]), stream[n]);
    }
  }

  // Taking the last change away from a division: the division it was extended from.
  lemma Shorten(parts: seq<seq<Change>>) returns (shorter: seq<seq<Change>>, c: Change)
    requires parts != [] && Maximal(parts)
    ensures Maximal(shorter) && Extend(shorter, c) == parts
  {
    var m := |parts| - 1;
    var last := parts[m];
    assert OneBatch(last);
    var k := |last| - 1;
    c := last[k];
    assert parts == parts[..m] + [last] && last == last[..k] + [c] && c in last;
    if k == 0 {
      shorter := parts[..m];
      assert m > 0 ==> OneBatch(parts[m - 1]);
    } else {
      shorter := parts[..m] + [last[..k]];
      assert shorter[..m] == parts[..m];
      assert OneBatch(last[..k]) by { assert forall x :: x in last[..k] ==> x in last; }
    }
  }

  // There is only one such division, so the runs are it.
  lemma {:induction false} RunsUnique(parts: seq<seq<Change>>)
    requires Maximal(parts)
    ensures Runs(Flatten(parts)) == parts
    decreases |Flatten(parts)|
  {
    if parts != [] {
      var shorter, c := Shorten(parts);
      ExtendMaximal(shorter, c);
      RunsUnique(shorter);
      RunsStep(Flatten(shorter), c);
    }
  }

  // ---------- the effect of the batches, one after another ----------

  datatype Store = Store(cache: map<string, seq<string>>, db: DB)

  // What a stream runs against: what was stored when it began; what applying a batch as the k-th one does,
  // and how its error is classified; and how many acknowledgments can be sent before the client is gone.
  datatype Env = Env(before: Store, apply: (Store, seq<Change>, nat) -> Applied, category: nat -> AckStatus,
                     sendable: nat)

  // A stream served by the PostgreSQL writer.
  function WriterEnv(target: Target, before: Store, idempotent: bool, troubles: seq<Trouble>, sendable: nat): Env {
    Env(before,
        (stored: Store, batch: seq<Change>, k: nat) =>
          ApplyAll(target, stored.cache, batch, idempotent, TroubleAt(troubles, k).failAt, stored.db),
        (k: nat) => TroubleAt(troubles, k).category,
        sendable)
  }

  // A batch that fails leaves the database alone.
  function Committed(stored: Store, a: Applied): Store {
    Store(a.cache, if a.result.Ok? then a.result.value.0 else stored.db)
  }

  function ServeUpTo(env: Env, batches: seq<seq<Change>>, k: nat): Store
    requires k <= |batches|
  {
    if k == 0 then env.before
    else
      var stored := ServeUpTo(env, batches, k - 1);
      Committed(stored, env.apply(stored, batches[k - 1], k - 1))
  }

  function LastLsnOf(changes: seq<Change>): Lsn {
    LastNonEmpty((c: Change) => c.lsn, changes)
  }

  function MakeAck(batchId: string, lsn: Lsn, lastSeq: nat, a: Applied, category: AckStatus): Ack {
    Ack(batchId, lsn, lastSeq, if a.result.Ok? then AckOk else category, if a.result.Ok? then a.result.value.1 else 0)
  }

  // The acknowledgment of the k-th batch. Its LSN is the last non-empty one of the whole stream up to
  // the end of the batch; it is not reset when a batch begins.
  function AckOf(env: Env, batches: seq<seq<Change>>, k: nat): Ack
    requires k < |batches| && OneBatch(batches[k])
  {
    var batch := batches[k];
    MakeAck(batch[0].batchId, LastLsnOf(Flatten(batches[..k + 1])), batch[|batch| - 1].sequenceNumber,
            env.apply(ServeUpTo(env, batches, k), batch, k), env.category(k))
  }

  // The acknowledgments given so far are those of the first batches.
  predicate AcksRight(env: Env, batches: seq<seq<Change>>, acks: seq<Ack>) {
    |acks| <= |batches| &&
    forall k :: 0 <= k < |acks| ==> OneBatch(batches[k]) && acks[k] == AckOf(env, batches, k)
  }

  lemma {:induction false} ServePrefix(env: Env, a: seq<seq<Change>>, b: seq<seq<Change>>, k: nat)
    requires k <= |a| && k <= |b| && a[..k] == b[..k]
    ensures ServeUpTo(env, a, k) == ServeUpTo(env, b, k)
  {
    if k > 0 {
      assert a[..k][..k - 1] == a[..k - 1] && b[..k][..k - 1] == b[..k - 1];
      assert a[k - 1] == a[..k][k - 1] && b[k - 1] == b[..k][k - 1];
      ServePrefix(env, a, b, k - 1);
    }
  }

  lemma SamePrefixSameAck(env: Env, a: seq<seq<Change>>, b: seq<seq<Change>>, k: nat)
    requires k < |a| && k < |b| && a[..k + 1] == b[..k + 1] && OneBatch(a[k])
    ensures OneBatch(b[k]) && AckOf(env, a, k) == AckOf(env, b, k)
  {
    assert a[k] == a[..k + 1][k] && b[k] == b[..k + 1][k];
    assert a[..k] == a[..k + 1][..k] && b[..k] == b[..k + 1][..k];
    ServePrefix(env, a, b, k);
  }

  lemma AcksOfPrefix(env: Env, a: seq<seq<Change>>, b: seq<seq<Change>>, acks: seq<Ack>)
    requires AcksRight(env, a, acks) && |a| <= |b| && b[..|a|] == a
    ensures AcksRight(env, b, acks)
  {
    forall k | 0 <= k < |acks|
      ensures OneBatch(b[k]) && acks[k] == AckOf(env, b, k)
    {
      assert b[..k + 1] == b[..|a|][..k + 1];
      SamePrefixSameAck(env, a, b, k);
    }
  }

  // Within a batch whose changes all carry an LSN, the acknowledged one is the batch's own last.
  lemma AckLsnIsOwn(env: Env, batches: seq<seq<Change>>, k: nat)
    requires k < |batches| && OneBatch(batches[k]) && batches[k][|batches[k]| - 1].lsn != []
    ensures AckOf(env, batches, k).lsn == batches[k][|batches[k]| - 1].lsn
  {
    assert batches[..k + 1][..k] == batches[..k] && batches[..k + 1][k] == batches[k];
  }

  // ---------- the receive loop ----------

  // What the loop knows after some changes: the finished runs, the open run and its id, the last LSN and
  // sequence number seen, what is stored and acknowledged, and whether an acknowledgment failed to be sent.
  datatype Session = Session(done: seq<seq<Change>>, open: seq<Change>, current: Option<string>, lastLsn: Lsn,
                             lastSeq: nat,
                             stored: Store, acks: seq<Ack>, gone: bool)

  function IdText(batchId: Option<string>): string {
    if batchId.Some? then batchId.value else "unknown"
  }

  // The open run, if there is one, is applied and acknowledged.
  function CloseRun(env: Env, s: Session): Session {
    if s.open == [] then s
    else
      var k := |s.acks|;
      var a := env.apply(s.stored, s.open, k);
      var ack := MakeAck(IdText(s.current), s.lastLsn, s.lastSeq, a, env.category(k));
      s.(done := s.done + [s.open], open := [], stored := Committed(s.stored, a),
         acks := if k == env.sendable then s.acks else s.acks + [ack], gone := k == env.sendable)
  }

  function Join(s: Session, c: Change): Session {
    s.(open := s.open + [c], current := Some(c.batchId), lastLsn := if |c.lsn| > 0 then c.lsn else s.lastLsn,
       lastSeq := c.sequenceNumber)
  }

  function Receive(env: Env, s: Session, c: Change): Session {
    if s.gone then s
    else if s.current == Some(c.batchId) then Join(s, c)
    else
      var closed := CloseRun(env, s);
      if closed.gone then closed else Join(closed, c)
  }

  function SessionAt(env: Env, stream: seq<Change>, i: nat): Session
    requires i <= |stream|
  {
    if i == 0 then Session([], [], None, [], 0, env.before, [], false)
    else Receive(env, SessionAt(env, stream, i - 1), stream[i - 1])
  }

  lemma {:induction false} GoneStays(env: Env, stream: seq<Change>, i: nat, j: nat)
    requires i <= j <= |stream| && SessionAt(env, stream, i).gone
    ensures SessionAt(env, stream, j) == SessionAt(env, stream, i)
    decreases j
  {
    if i < j {
      GoneStays(env, stream, i, j - 1);
    }
  }

  // One more change: it joins the open run, or closes it and opens the next, unless the client turns out gone.
  lemma SessionStep(env: Env, stream: seq<Change>, i: nat, s: Session)
    requires i < |stream| && s == SessionAt(env, stream, i) && !s.gone
    ensures s.current == Some(stream[i].batchId) ==> SessionAt(env, stream, i + 1) == Join(s, stream[i])
    ensures s.current != Some(stream[i].batchId) && !CloseRun(env, s).gone
            ==> SessionAt(env, stream, i + 1) == Join(CloseRun(env, s), stream[i])
    ensures s.current != Some(stream[i].batchId) && CloseRun(env, s).gone
            ==> SessionAt(env, stream, |stream|) == CloseRun(env, s)
  {
    assert SessionAt(env, stream, i + 1) == Receive(env, s, stream[i]);
    if s.current != Some(stream[i].batchId) && CloseRun(env, s).gone {
      GoneStays(env, stream, i + 1, |stream|);
    }
  }

  // ---------- the service ----------

  datatype StreamEnd = Eof | Broken

  class CdcSyncService {
    const writer: PostgreSQLWriter
    const idempotentWrites: bool

    constructor (writer: PostgreSQLWriter, idempotentWrites: bool)
      ensures this.writer == writer && this.idempotentWrites == idempotentWrites
    {
      this.writer, this.idempotentWrites := writer, idempotentWrites;
    }

    ghost function Stored(): Store
      reads writer
    {
      Store(writer.pkCache, writer.db)
    }

    ghost function Before(troubles: seq<Trouble>, sendable: nat): Env
      reads writer
    {
      WriterEnv(writer.target, Stored(), idempotentWrites, troubles, sendable)
    }

    // Apply one batch and build its acknowledgment.
    method ProcessBatch(batchId: Option<string>, changes: seq<Change>, lsn: Lsn, lastSeq: nat, t: Trouble)
      returns (ack: Ack)
      modifies writer
      ensures var a := ApplyAll(writer.target, old(writer.pkCache), changes, idempotentWrites, t.failAt,
                                old(writer.db));
              && ack == MakeAck(IdText(batchId), lsn, lastSeq, a, t.category)
              && ack.lsn == lsn && ack.lastSequenceNumber == lastSeq
              && ack.status == (if a.result.Ok? then AckOk else t.category)
              && Stored() == Committed(old(Stored()), a)
    {
      var batchIdStr := "unknown";
      if batchId.Some? {
        batchIdStr := batchId.value;
      }
      var r := writer.ApplyChanges(changes, idempotentWrites, t.failAt);
      if r.Err? {
        return Ack(batchIdStr, lsn, lastSeq, t.category, 0);
      }
      ack := Ack(batchIdStr, lsn, lastSeq, AckOk, r.value);
    }

    // Process the open run, if there is one, and send its acknowledgment unless the client is gone.
    method CloseBatch(ghost env: Env, ghost s: Session, acks: seq<Ack>, batchId: Option<string>, changes: seq<Change>,
                      lsn: Lsn, lastSeq: nat, sendable: nat, troubles: seq<Trouble>)
      returns (acks': seq<Ack>, gone: bool)
      requires env == WriterEnv(writer.target, env.before, idempotentWrites, troubles, sendable)
      requires s == Session(s.done, changes, batchId, lsn, lastSeq, Stored(), acks, false)
      modifies writer
      ensures acks' == CloseRun(env, s).acks && gone == CloseRun(env, s).gone && Stored() == CloseRun(env, s).stored
    {
      acks', gone := acks, false;
      if |changes| > 0 {
        var ack := ProcessBatch(batchId, changes, lsn, lastSeq, TroubleAt(troubles, |acks|));
        if |acks| == sendable {
          gone := true;
        } else {
          acks' := acks + [ack];
        }
      }
    }

    // The receive loop: every change received joins the open run or closes it and opens the next.
    method ReceiveAll(stream: seq<Change>, sendable: nat, troubles: seq<Trouble>)
      returns (acks: seq<Ack>, gone: bool, currentBatchId: Option<string>, batchChanges: seq<Change>, lastLsn: Lsn,
               lastSeq: nat,
               ghost s: Session)
      modifies writer
      ensures s == SessionAt(old(Before(troubles, sendable)), stream, |stream|) && gone == s.gone
      ensures acks == s.acks && Stored() == s.stored
      ensures !gone ==> s == Session(s.done, batchChanges, currentBatchId, lastLsn, lastSeq, Stored(), acks, false)
    {
      ghost var env := Before(troubles, sendable);
      acks, gone, currentBatchId, batchChanges, lastLsn, lastSeq := [], false, None, [], [], 0;
      s := SessionAt(env, stream, 0);
      for i := 0 to |stream|
        invariant !gone && s == SessionAt(env, stream, i)
        invariant s == Session(s.done, batchChanges, currentBatchId, lastLsn, lastSeq, Stored(), acks, false)
      {
        var change := stream[i];
        SessionStep(env, stream, i, s);
        if currentBatchId.None? || currentBatchId.value != change.batchId {
          acks, gone := CloseBatch(env, s, acks, currentBatchId, batchChanges, lastLsn, lastSeq, sendable, troubles);
          s := CloseRun(env, s);
          if gone {
            return;
          }
          batchChanges := [];
          currentBatchId := Some(change.batchId);
        }
        if |change.lsn| > 0 {
          lastLsn := change.lsn;
        }
        lastSeq := change.sequenceNumber;
        batchChanges := batchChanges + [change];
        s := Join(s, change);
      }
    }

    // At the end of the stream the open run is processed too; a stream that breaks leaves it unapplied.
    method StreamChanges(stream: seq<Change>, end: StreamEnd, sendable: nat, troubles: seq<Trouble>)
      returns (acks: seq<Ack>, ok: bool)
      modifies writer
      ensures StreamServed(old(Before(troubles, sendable)), stream, end, Stored(), acks, ok)
    {
      ghost var env := Before(troubles, sendable);
      var gone, currentBatchId, batchChanges, lastLsn, lastSeq;
      ghost var s;
      acks, gone, currentBatchId, batchChanges, lastLsn, lastSeq, s := ReceiveAll(stream, sendable, troubles);
      if gone || end.Broken? {
        StreamFailed(env, stream, end);
        return acks, false;
      }
      StreamEnded(env, stream);
      acks, gone := CloseBatch(env, s, acks, currentBatchId, batchChanges, lastLsn, lastSeq, sendable, troubles);
      ok := !gone;
    }
  }

  // ---------- what the loop means ----------

  // What the acknowledgments and the stored state are after the runs in `done`.
  predicate Served(env: Env, s: Session) {
    && s.stored == ServeUpTo(env, s.done, |s.done|) && AcksRight(env, s.done, s.acks)
    && |s.acks| + (if s.gone then 1 else 0) == |s.done|
    && |s.acks| <= env.sendable && (s.gone ==> |s.acks| == env.sendable)
  }

  // The open run is one batch, and its id, last sequence number and the last LSN are at hand.
  predicate OpenRun(s: Session) {
    && s.lastLsn == LastLsnOf(Flatten(s.done) + s.open)
    && (s.open != []
        ==> && OneBatch(s.open) && s.current == Some(s.open[0].batchId)
            && s.lastSeq == s.open[|s.open| - 1].sequenceNumber)
  }

  lemma CloseKeepsFlat(s: Session)
    requires OpenRun(s)
    ensures LastLsnOf(Flatten(s.done + [s.open])) == s.lastLsn
  {
    FlattenSnoc(s.done, s.open);
  }

  lemma CloseServed(env: Env, s: Session)
    requires Served(env, s) && OpenRun(s) && !s.gone && s.open != []
    ensures Served(env, CloseRun(env, s))
  {
    var done := s.done + [s.open];
    assert done[..|s.done|] == s.done == s.done[..|s.done|] && done[..|done|] == done;
    CloseKeepsFlat(s);
    ServePrefix(env, done, s.done, |s.done|);
    AcksOfPrefix(env, s.done, done, s.acks);
    assert CloseRun(env, s).acks == s.acks || CloseRun(env, s).acks == s.acks + [AckOf(env, done, |s.done|)];
  }

  lemma JoinLsn(flat: seq<Change>, c: Change)
    ensures LastLsnOf(flat + [c]) == if |c.lsn| > 0 then c.lsn else LastLsnOf(flat)
  {
    assert (flat + [c])[..|flat|] == flat;
  }

  lemma JoinOpen(s: Session, c: Change)
    requires OpenRun(s) && (s.open == [] || s.current == Some(c.batchId))
    ensures OpenRun(Join(s, c))
  {
    var flat := Flatten(s.done) + s.open;
    assert Flatten(s.done) + (s.open + [c]) == flat + [c];
    JoinLsn(flat, c);
    assert s.open != [] ==> (s.open + [c])[0] == s.open[0];
  }

  lemma CloseOpen(env: Env, s: Session)
    requires OpenRun(s)
    ensures OpenRun(CloseRun(env, s))
  {
    CloseKeepsFlat(s);
    assert Flatten(s.done + [s.open]) + [] == Flatten(s.done + [s.open]);
  }

  lemma ReceiveServed(env: Env, s: Session, c: Change)
    requires Served(env, s) && OpenRun(s)
    ensures Served(env, Receive(env, s, c)) && OpenRun(Receive(env, s, c))
  {
    if !s.gone {
      if s.current == Some(c.batchId) {
        JoinOpen(s, c);
      } else {
        if s.open != [] { CloseServed(env, s); }
        CloseOpen(env, s);
        JoinOpen(CloseRun(env, s), c);
      }
    }
  }

  // What holds at the beginning of a stream and survives each received change holds all along.
  lemma {:induction false} SessionInduction(env: Env, stream: seq<Change>, i: nat, good: Session -> bool)
    requires i <= |stream| && good(SessionAt(env, stream, 0))
    requires forall s, c :: good(s) ==> good(Receive(env, s, c))
    ensures good(SessionAt(env, stream, i))
  {
    if i > 0 {
      SessionInduction(env, stream, i - 1, good);
    }
  }

  lemma SessionServed(env: Env, stream: seq<Change>, i: nat)
    requires i <= |stream|
    ensures Served(env, SessionAt(env, stream, i)) && OpenRun(SessionAt(env, stream, i))
  {
    forall s, c | Served(env, s) && OpenRun(s)
      ensures Served(env, Receive(env, s, c)) && OpenRun(Receive(env, s, c))
    {
      ReceiveServed(env, s, c);
    }
    SessionInduction(env, stream, i, s => Served(env, s) && OpenRun(s));
  }

  // Unless the client is gone, the runs received so far are the finished ones and the open one.
  predicate RunsAt(s: Session, runs: seq<seq<Change>>, i: nat) {
    if s.gone then s.open == [] && |s.done| < |runs| && runs[..|s.done|] == s.done
    else if i == 0 then runs == [] && s.done == [] && s.open == [] && s.current.None?
    else s.open != [] && s.current == Some(s.open[0].batchId) && runs == s.done + [s.open]
  }

  lemma ReceiveRuns(env: Env, s: Session, c: Change, runs: seq<seq<Change>>, i: nat)
    requires RunsAt(s, runs, i)
    ensures RunsAt(Receive(env, s, c), Extend(runs, c), i + 1)
  {
    if s.gone {
      assert Extend(runs, c)[..|s.done|] == runs[..|s.done|];
    } else if i > 0 {
      assert runs[..|s.done|] == s.done;
      assert [] + [c] == [c] && (s.current == Some(c.batchId) ==> (s.open + [c])[0] == s.open[0]);
    }
  }

  lemma {:induction false} SessionRuns(env: Env, stream: seq<Change>, i: nat)
    requires i <= |stream|
    ensures RunsAt(SessionAt(env, stream, i), Runs(stream[..i]), i)
  {
    if i > 0 {
      SessionRuns(env, stream, i - 1);
      assert stream[..i] == stream[..i - 1] + [stream[i - 1]];
      RunsStep(stream[..i - 1], stream[i - 1]);
      ReceiveRuns(env, SessionAt(env, stream, i - 1), stream[i - 1], Runs(stream[..i - 1]), i - 1);
    }
  }

  // How many of a stream's runs are due to be applied: all of them when it ends, all but the last, still
  // open, one when it breaks.
  function Due(stream: seq<Change>, end: StreamEnd): nat {
    var n := |Runs(stream)|;
    if end.Broken? && n > 0 then n - 1 else n
  }

  // Of the runs due, in order, as many were acknowledged as could be sent, and those and at most one more,
  // whose acknowledgment found no client, were applied.
  predicate StreamServed(env: Env, stream: seq<Change>, end: StreamEnd, stored: Store, acks: seq<Ack>, ok: bool) {
    var runs, due := Runs(stream), Due(stream, end);
    && |acks| == (if env.sendable < due then env.sendable else due)
    && ok == (end.Eof? && due <= env.sendable)
    && stored == ServeUpTo(env, runs, if env.sendable < due then env.sendable + 1 else due)
    && AcksRight(env, runs, acks)
  }

  lemma ServedIsStreamServed(env: Env, stream: seq<Change>, end: StreamEnd, s: Session)
    requires Served(env, s) && |s.done| <= |Runs(stream)| && Runs(stream)[..|s.done|] == s.done
    requires if s.gone then |s.done| <= Due(stream, end) else |s.done| == Due(stream, end)
    ensures StreamServed(env, stream, end, s.stored, s.acks, !s.gone && end.Eof?)
  {
    assert s.done[..|s.done|] == s.done;
    ServePrefix(env, Runs(stream), s.done, |s.done|);
    AcksOfPrefix(env, s.done, Runs(stream), s.acks);
  }

  lemma StreamFailed(env: Env, stream: seq<Change>, end: StreamEnd)
    requires SessionAt(env, stream, |stream|).gone || end.Broken?
    ensures var s := SessionAt(env, stream, |stream|); StreamServed(env, stream, end, s.stored, s.acks, false)
  {
    var n := |stream|;
    SessionServed(env, stream, n);
    SessionRuns(env, stream, n);
    assert stream[..n] == stream;
    ServedIsStreamServed(env, stream, end, SessionAt(env, stream, n));
  }

  lemma CloseRuns(env: Env, s: Session, runs: seq<seq<Change>>, n: nat)
    requires RunsAt(s, runs, n) && !s.gone && Served(env, s) && OpenRun(s)
    ensures Served(env, CloseRun(env, s)) && CloseRun(env, s).done == runs
  {
    if s.open != [] { CloseServed(env, s); }
  }

  lemma WholeStreamServed(env: Env, stream: seq<Change>, s: Session)
    requires Served(env, s) && s.done == Runs(stream)
    ensures StreamServed(env, stream, Eof, s.stored, s.acks, !s.gone)
  {
    assert Runs(stream)[..|s.done|] == s.done;
    ServedIsStreamServed(env, stream, Eof, s);
  }

  lemma StreamEnded(env: Env, stream: seq<Change>)
    requires !SessionAt(env, stream, |stream|).gone
    ensures var s := CloseRun(env, SessionAt(env, stream, |stream|));
            StreamServed(env, stream, Eof, s.stored, s.acks, !s.gone)
  {
    var n := |stream|;
    SessionServed(env, stream, n);
    SessionRuns(env, stream, n);
    assert stream[..n] == stream;
    CloseRuns(env, SessionAt(env, stream, n), Runs(stream), n);
    WholeStreamServed(env, stream, CloseRun(env, SessionAt(env, stream, n)));
  }

  // What an acknowledgment says: it names its run's batch and its last change's sequence number, and reports what
  // became of the run when its turn came.
  predicate Says(env: Env, runs: seq<seq<Change>>, k: nat, ack: Ack)
    requires k < |runs|
  {
    var run := runs[k];
    var result := env.apply(ServeUpTo(env, runs, k), run, k).result;
    && run != []
    && var last := run[|run| - 1];
    && ack.batchId == last.batchId && ack.lastSequenceNumber == last.sequenceNumber
    && (last.lsn != [] ==> ack.lsn == last.lsn)
    && (if result.Ok? then ack.status == AckOk && ack.rowsProcessed == result.value.1
        else ack.status == env.category(k) && ack.rowsProcessed == 0)
  }

  lemma AckSays(env: Env, runs: seq<seq<Change>>, k: nat)
    requires k < |runs| && OneBatch(runs[k])
    ensures Says(env, runs, k, AckOf(env, runs, k))
  {
    var run := runs[k];
    assert run[|run| - 1] in run;
    if run[|run| - 1].lsn != [] { AckLsnIsOwn(env, runs, k); }
  }

  lemma AcksSay(env: Env, stream: seq<Change>, end: StreamEnd, stored: Store, acks: seq<Ack>, ok: bool)
    requires StreamServed(env, stream, end, stored, acks, ok)
    ensures |acks| <= |Runs(stream)| && forall k :: 0 <= k < |acks| ==> Says(env, Runs(stream), k, acks[k])
  {
    assert AcksRight(env, Runs(stream), acks);
    forall k | 0 <= k < |acks|
      ensures Says(env, Runs(stream), k, acks[k])
    {
      AckSays(env, Runs(stream), k);
    }
  }
}
