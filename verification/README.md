# A verified model of the CDC pipeline

The repository moves captured row changes from SQL Server to PostgreSQL: a client polls change tables, sends each poll
as a batch over a stream, and moves its cursor; a server applies each batch in one transaction and acknowledges it. Its
promise is that replay is safe: whatever acknowledgments are lost, saves fail, batches are delivered twice or clients
restart, nothing is missing from the target in the end. This project models that pipeline in Dafny and proves the promise, and says
exactly what the code relies on for it.

## How it is built

* `Replica.dfy` is the algebra of the target: a database maps a key (table, primary-key columns) to a row, a write merges a
  row into a key or deletes a key. Its law is *absorption*: writes that will be written again may be written early.
* `Protocol.dfy` is the whole system as a transition system. A state holds the source logs, the cursors in memory and in
  the state file, the target, where the client stands in its cycle, and the batches it gave up on. Every choice of the
  environment (appends, read faults, failed saves, lost streams and acknowledgments, late commits, crashes) is part of an
  event, so a step is a function and a run is a fold. `Safe` states what the code needs of the environment.
* `Replay.dfy` says what applying rows, moving a cursor either way, appending and a late commit do to the outcome of replay;
  `Invariant.dfy` and `Safety.dfy` make of it the invariant that every safe run keeps. `Progress.dfy`, `Drain.dfy` and
  `SourceTables.dfy` prove that cursors only move forward and the state file always holds an earlier memory; that a resting log
  is drained; that the drained target shows the source tables although before-images are ignored.
* `Hypotheses.dfy` and `Witnesses.dfy` show why each demand in `Safe` and `DistinctTargets` is there, and how far it could be
  weakened; `Foresight.dfy` tells from the rows beyond a cursor, before any poll, whether the next one will be closed.
* `Writer.dfy`, `Server.dfy`, `Client.dfy`, `StateFile.dfy`, `Reader.dfy`, `Mapping.dfy`, `Retry.dfy` hold the code as classes and
  methods with its loops and fields, each proved against a specification function; `Plain.dfy` is about the writer without
  idempotent mode.
* `Turns.dfy` says, as a function of what the environment chooses, what a source's turn and a sync cycle of the assembled
  components come to, and proves that a cycle *is* a run of the protocol, so that the theorems about runs are theorems about the
  code; `Orchestrator.dfy` assembles the components and proves that the code does exactly that. `Loop.dfy` is the main loop over
  such cycles, with logs that grow in between; `Healthy.dfy` proves that fault-free cycles are the rounds that drain the logs, and
  `Convergence.dfy` where the loop ends up.
* `Lsn.dfy`, `Source.dfy`, `Coverage.dfy`, `Changes.dfy`, `Cursors.dfy`, `Filtering.dfy`, `Ordering.dfy`, `Common.dfy` and
  `Sequences.dfy` supply what these need: LSN order and text form, the windows of a poll, what a cursor may skip, how rows become
  changes and writes, bookkeeping, filtering, independence of order, dotted names, and selection from sequences.

LSNs are byte strings with a numeric value; column values are opaque JSON texts; a NULL LSN is the empty one. The two database
engines are represented by what the statements issued to them do. I/O outcomes, batch identifiers, read faults, connection drops
and the class of an error are parameters.

## What the code needs, and what happens otherwise

Replay is safe if (all in `Protocol.Safe`, `Protocol.DistinctTargets` and the requirements of `Orchestrator`):

1. *Every poll is closed*: the cursor does not pass a tracked row that the poll did not return. `Foresight.ClosedAheadIff` gives
   the exact condition in terms of what can be checked before the poll, for any number of tables and any read faults;
   `Coverage.CoversIff` is its form for what came back. `SingleTableCovers`, `SmallPollCovers` and `ShortPollCovers` are simpler
   cases. It fails when TOP cuts a transaction, when the early exit leaves a table unread, and when a table's read error is skipped
   or swallowed. What that costs is exactly known too: with complete rows a cycle, closed or not, keeps replay right if and only if of
   every key it passes for good the last write was sent last, or none was sent and the target holds it already
   (`Hypotheses.CycleIff`). A missed insert, update or delete is lost for good on each of the three paths that move the cursor
   (`Hypotheses.UnclosedPollLosesRow`, `Hypotheses.FailedReadsLoseRow`, `Hypotheses.PassedRowIsNeverReadAgain`, and the runs in
   `Witnesses`).
2. *A poll that starts beyond the confirmed position is closed from that position too.* The two differ only between the recording
   of a source's first batch and its acknowledgment: recording moves the position of the next poll behind the batch, sent or not.
   If the batch committed, at once or late, and its acknowledgment was lost, nothing is missing and the client may go on polling. If it was
   rejected, it is polled again if and only if its source had a cursor before (`Hypotheses.RejectedBatchIsPolledAgainIff`).
3. *A batch the client gave up on does not commit over newer content*: if it commits, then of every key it writes its writes up
   to the confirmed position, or up to the one the client builds on next, are the last ones up to there. A duplicate of a batch
   that was redelivered and acknowledged meets this as long as nothing newer of its keys was passed. With complete rows the exact
   condition for the outcome is that of every key of the batch the last write is the last one in the log, or more of the key is
   still to come (`Hypotheses.LateCommitIff`; `Hypotheses.StaleLateCommitBreaksReplay` needs no complete rows).
4. *Idempotent mode is on*, and *the batch size is positive* (`Hypotheses.ZeroBatchIsNotClosed`). Without idempotent mode a
   batch that was accepted is rejected when it is redelivered if and only if some key of a table with a primary key has puts for
   its first and last writes, or the constraints forbid what would be left (`Plain.PlainBatchReplayIff`). A table without a primary
   key rejects nothing: there redelivery duplicates the rows (`Plain.KeylessReplayDuplicates`).
5. *Tracked tables have different target tables*; whenever two share one and the order of their writes to a key matters, a run
   that meets every other demand goes wrong (`Hypotheses.SharedTargetBreaks`, and a concrete one in
   `Witnesses.SharedTargetBreaksReplay`).
6. *Update pairs keep their key*; otherwise the old row stays behind (`SourceTables.PairReproducedIff`).
7. *No schema name is another one extended by a dot*; exactly then no two tables share a cache entry (`Common.DottedClashIff`).

Two places where the code and its documentation differ, and the model follows the code: README.md:20 says the cursor advances only
after the server confirms, but an empty poll and a poll without tracked rows advance it locally
(internal/client/sync_runner.go:235-274); a poll leaves the acknowledged position alone if and only if it returned tracked rows, or
nothing and no new maximum LSN (`Progress.PollLeavesCursorIff`). And the batch in flight moves the next poll of a new source
(internal/client/state.go:129-136, internal/client/sync_runner.go:208-213).

## Model

| member | source | states |
|---|---|---|
| Safety.SafeReplay | internal/client/sync_runner.go:205-337 | after every safe run from a fresh start, applying everything beyond the cursors to the target gives exactly the fully replayed tables, both for the cursors in memory and for those in the state file |
| Safety.RunKeepsInv | internal/client/sync_runner.go:205-337 | the replay invariant, for both cursors and the batch or acknowledgment on its way, survives every safe run from any state it holds in, late duplicates and lost acknowledgments included |
| Replay.AdvanceKeepsReplay | internal/client/sync_runner.go:235-303 | applying rows and moving one source's cursor keeps replay right whenever the move is covered by the rows, on each of the three advancing paths |
| Replay.CommitKeepsReplay | internal/connector/postgres/writer.go:73-127 | a commit whose acknowledgment never arrives keeps replay right: its rows are absorbed by their redelivery |
| Replay.AppendKeepsReplay | internal/connector/mssql/reader.go:154-187 | rows the capture job adds beyond the maximum LSN extend both sides of replay alike |
| Replay.EarlierReplays | internal/client/state.go:23-61 | replay that is right from some cursors is right from any cursors further back, such as those a restart finds in the file |
| Replay.LateKeepsReplay | internal/server/grpc_server.go:54-64 | a batch that commits once more, late, keeps replay right if of none of its keys anything newer was passed |
| Progress.CursorsNeverFallBack | internal/client/state.go:89-112 | along every run without a restart no source's acknowledged position falls, whatever polls, rejections and losses occur |
| Progress.CursorsMoveForward | internal/client/sync_runner.go:205-233 | one event never lowers an acknowledged position in memory, and a poll of one source leaves the other sources' cursors alone; a restart falls back to the file and no further |
| Progress.AckMovesOne | internal/client/sync_runner.go:296-303 | an arriving acknowledgment moves its own source strictly forward and no other source at all |
| Progress.PollEventMoves | internal/client/sync_runner.go:235-274 | a poll never lowers its source's acknowledged position, raises it strictly when rows came but none is tracked, and leaves the others' alone |
| Progress.PollLeavesCursorIff | internal/client/sync_runner.go:235-287 | a poll leaves the acknowledged position alone if and only if it returned tracked rows, or returned nothing and has no new maximum LSN to report |
| Progress.PollRecords | internal/client/sync_runner.go:276-287 | a poll with tracked rows is recorded with the last LSN polled and the number of changes to be sent, and the batch is on its way exactly if the record was saved |
| Progress.OthersLeaveCursors | internal/client/sync_runner.go:319-335 | rejections of every kind, broken streams and lost acknowledgments leave both the cursors in memory and the file unchanged |
| Progress.DiskIsEarlierMemory | internal/client/state.go:165-180 | after any run whatever the file holds exactly what memory held at some moment of the run, never a mixture |
| Progress.OrderedRun | internal/client/state.go:114-117 | in every reachable state each source's acknowledged position on disk is at most the one in memory, and both are positions in the log |
| Drain.CycleShrinks | internal/client/sync_runner.go:235-303 | an undisturbed cycle over a non-empty remainder makes it strictly smaller, also when the last polled rows are untracked; over an empty one it sets the cursor to the maximum LSN |
| Drain.RoundsDrain | internal/client/sync_runner.go:195-340 | each of n undisturbed sync cycles over all sources takes at least one row from the remainder of every source that has any left, whether or not its polls are closed, and leaves no acknowledged position further back |
| Drain.Converges | internal/client/sync_runner.go:148-192 | once the logs rest, as many undisturbed sync cycles as the longest remainder has rows leave the target equal to the replicated tables, if these cycles are a safe run |
| Drain.RoundsAreSafe | internal/client/sync_runner.go:195-340 | they are if every poll from the cursors on is closed |
| Drain.SmallRemainderClosed | internal/connector/mssql/reader.go:127-143 | with fewer rows beyond a position than a batch holds, of whatever tables, every undisturbed poll from there on is closed |
| Drain.SingleTableClosedFrom | internal/connector/mssql/reader.go:286-297 | so is every one of a single table whose rows beyond the position, however many, have different LSNs |
| SourceTables.BeforeImagesDoNotMatter | internal/connector/postgres/writer.go:93-113 | for every log in which each row captured with operation 3 is followed by its after-image with 4, the writer's fold, which skips before-images, agrees on the replicated columns with source semantics in which 1 and 3 remove the row and 2 and 4 put it |
| SourceTables.CapturedWrites | internal/connector/mssql/reader.go:359-370 | a tracked row captured with operation 1 deletes its key, with 2 or 4 puts the row, with 3 or any other writes nothing; the table is the one the client's entry names under the server's override of the schema |
| SourceTables.PairReproducedIff | internal/connector/postgres/writer.go:93-96 | an update pair is reproduced on the key of its before-image if and only if the key did not change |
| SourceTables.ReplicatedIsSource | internal/connector/mssql/reader.go:359-370 | on every key of a fed table the replicated tables show what the source table holds |
| SourceTables.ConvergesToSource | internal/client/sync_runner.go:148-192 | from every state that satisfies the invariant, between cycles and with every source's first batch acknowledged, that many undisturbed and safe sync cycles over resting logs end with a target that shows the source tables on every replicated key |
| Replica.Absorption | internal/connector/postgres/writer.go:90-119 | for every database, writing u and then w is the same as writing w, if every write of u occurs in w |
| Replica.ReplayIsIdempotent | internal/connector/postgres/writer.go:90-119 | a batch applied twice, or redelivered after a part of it was applied, leaves what applying it once leaves |
| Replica.OrderIndependence | internal/connector/postgres/writer.go:82-86 | two sequences of writes that agree key by key lead to the same database |
| Replica.StaleWriteSurvives | internal/connector/postgres/writer.go:176-189 | without the containment absorption fails: an old put written again after its successor stays |
| Coverage.PollPrefix | internal/connector/mssql/reader.go:127-145 | of each table a poll returns a prefix of its rows beyond the cursor, whatever other tables and read faults do |
| Coverage.PollBeyondCursor | internal/connector/mssql/reader.go:94-108 | every polled row is in the log, lies strictly beyond the cursor and not beyond the maximum LSN |
| Coverage.CoversIff | internal/client/sync_runner.go:261-285 | a cursor move skips nothing of a table if and only if the table's first unread row lies beyond the new position |
| Coverage.SingleTableCovers | internal/connector/mssql/reader.go:286-297 | with one captured table that has rows beyond the cursor, a poll covers its own last LSN if and only if TOP does not cut between two rows of one LSN |
| Coverage.SmallPollCovers | internal/connector/mssql/reader.go:127-143 | with fewer rows beyond the cursor than a batch holds, a table that was read without fault is returned completely and any move is covered |
| Coverage.ShortPollCovers | internal/connector/mssql/reader.go:127-145 | a poll that returns fewer rows than a batch holds every table that was read without fault completely, so any move is covered |
| Foresight.PollAhead | internal/connector/mssql/reader.go:127-145 | of each table a poll returns exactly the first rows beyond the cursor, as many as counting off the tables' rows, with the faults, TOP and the early exit, foresees |
| Foresight.ClosedAheadIff | internal/client/sync_runner.go:235-285 | the next poll is closed if and only if, counted off that way, of no tracked table the first row left out lies at or before the one the cursor will go to: the last tracked row, else the last row, else the maximum LSN |
| Source.ReadTablesShape | internal/connector/mssql/reader.go:127-145 | a poll consists, for each table, of a prefix of its window, and of nothing else |
| Source.PollBound | internal/connector/mssql/reader.go:139-142 | with batch size B > 0 a poll returns at most 2B-1 rows, and at most B when only one table is read |
| Source.ClampKeepsRows | internal/connector/mssql/reader.go:250-256 | clamping the start to a table's minimum LSN returns the same rows, since none lies below it |
| Source.IncrementIsSuccessor | internal/connector/mssql/reader.go:189-203 | the increment is the strict successor in numeric value, and only the largest LSN of its length has none |
| Coverage.StartIsNext | internal/connector/mssql/reader.go:94-108 | the start of a poll is one past the cursor, and every row beyond the cursor lies at or above it |
| Coverage.PollReports | internal/connector/mssql/reader.go:75-115 | a poll reports the maximum LSN unless there is none, or there is neither a cursor nor a table with a non-zero minimum; then it returns nothing |
| Source.MinLsnIsLeast | internal/connector/mssql/reader.go:154-187 | the LSN a first poll starts from is the least of the tables' minimum LSNs that are not zero, and there is none exactly if all are |
| Lsn.CompareIsNumeric | internal/connector/mssql/reader.go:250-256 | on LSNs of one length byte comparison is big-endian numeric comparison, and only equal bytes compare equal |
| Lsn.HexOrderIsByteOrder | internal/common/types.go:20-23 | comparing the upper-case hexadecimal texts orders LSNs of any lengths as comparing their bytes does |
| Lsn.HexRoundTrip | internal/common/types.go:25-33 | parsing the hexadecimal text of any LSN, with or without "0x" in front, returns the LSN |
| Lsn.HexNeverPrefixed | internal/common/types.go:27 | the text of an LSN never begins with "0x", so trimming never eats digits |
| Lsn.EncodeDecode | internal/common/types.go:25-33 | an accepted text has two digits a byte and is the text of the LSN it denotes, up to letter case |
| Lsn.HexText | internal/common/types.go:20-23 | the text has two digits a byte, upper-case, the higher one first |
| Lsn.DecodesIff | internal/common/types.go:25-33 | without the prefix a text denotes an LSN if and only if it consists of pairs of hexadecimal digits of either case |
| Changes.KeyAgreement | internal/connector/mssql/reader.go:372-387 | with distinct column names the key of a change is its row projected on the primary-key columns, complete if the row is |
| Changes.RowHoldsValues | internal/connector/mssql/reader.go:376-387 | every captured value is found in the row under its own column's name |
| Mapping.BuildIndex | internal/client/sync_runner.go:54-80 | the nested index answers every lookup as a scan for the last matching configuration entry does |
| Mapping.ResolveIsLastMatch | internal/client/sync_runner.go:54-80 | the entry found is the last one of the schema and table that is for the source, and none is found exactly if there is none: an entry with a database name is for the source of that name, one without for the only source, or for "default" if there are several |
| Mapping.MapSchemaIsFirstMatch | internal/connector/postgres/writer.go:53-60 | the first override of a schema wins, and a schema without one keeps its name |
| Filtering.FilteredCarries | internal/client/sync_runner.go:251-259 | what is sent of a poll carries exactly its tracked rows, in order, each with its LSN, operation, key and row, to the table that the client's mapping composed with the server's names |
| Filtering.CarriedWrites | internal/connector/postgres/writer.go:90-119 | a batch that carries some rows stands for exactly those rows' writes |
| Cursors.PendingConservation | internal/client/state.go:100-107 | after any history of calls a source's pending list is exactly the batches recorded and not updated since, in record order |
| Cursors.LastUpdateDecides | internal/client/state.go:89-112 | after any history of calls a source that was ever updated has the LSN of its last update as its acknowledged and its processed position |
| Cursors.FirstRecordDecides | internal/client/state.go:129-140 | one that never was has a cursor exactly if a batch was recorded for it: at the LSN of the first one, with nothing acknowledged |
| Cursors.DummyIdRemovesNothing | internal/client/sync_runner.go:243-244 | an identifier under which no batch was recorded removes none |
| Cursors.RecordKeepsPollCursorIff | internal/client/state.go:129-136 | recording a batch leaves the position of the next poll alone if and only if the source has an entry or stood there already; the acknowledged position never changes |
| StateFile.LoadEncode | internal/client/state.go:165-180 | reading back what was written out gives the same cursors, for every source and field |
| StateFile.OtherFiles | internal/client/state.go:37-58 | a legacy cursor with a time stamp becomes that of "default"; without one, or without a readable file, or with one unreadable cursor, a start has no cursors |
| StateFile.StateManager.constructor | internal/client/state.go:23-61 | a start finds what the file holds: one cursor per source, a legacy cursor as "default", or nothing if the file is missing or unreadable |
| StateFile.StateManager.GetCursor | internal/client/state.go:64-76 | returns the value of the source's cursor, or nothing if it has none |
| StateFile.StateManager.UpdateCursor | internal/client/state.go:79-121 | memory becomes the specified update of the old memory, and the file then loads as that memory if the save worked and is untouched if not |
| StateFile.StateManager.RecordPendingBatch | internal/client/state.go:124-146 | memory gains the batch at the end of the source's list, with a new entry seeded by its LSN, and the file follows or is untouched |
| StateFile.StateManager.GetPendingBatches | internal/client/state.go:150-163 | returns exactly the sources with pending batches, each with all of them in order |
| StateFile.StateManager.PersistState | internal/client/state.go:167-180 | the file is afterwards one that loads as memory, or the old one |
| Reader.MSSQLReader.RowToChangeRequest | internal/connector/mssql/reader.go:340-411 | the request built by the loop over the columns is the change the row stands for: its LSN, number, table and column metadata, its operation by SQL Server's number, and a row with exactly the columns that have values |
| Reader.MSSQLReader.ColumnsOf | internal/connector/mssql/reader.go:258-274 | with fixed metadata the schema cache returns what the catalog would, and stays right |
| Reader.MSSQLReader.ReadTableChanges | internal/connector/mssql/reader.go:236-338 | returns the changes of the clamped TOP window numbered from zero, nothing on a swallowed query error, and an error on any other |
| Reader.MSSQLReader.PollChanges | internal/connector/mssql/reader.go:75-146 | returns fresh, distinct requests that are the rendering of the specified poll from the position, and the maximum LSN |
| Reader.RenderPart | internal/connector/mssql/reader.go:306-336 | appending one more table's changes, numbered from zero, is rendering the rows after those of the other tables |
| Reader.RenderedNumbers | internal/connector/mssql/reader.go:306-336 | each polled change carries its row's LSN, table and metadata, and is numbered by how many rows of its table came before it |
| Writer.PostgreSQLWriter.GetPrimaryKeyColumns | internal/connector/postgres/writer.go:279-341 | the answer is what is cached under the dotted name, else all columns the change marks as key columns, else the primary key of the target table, and it is cached; a query that fails, for a missing table or for an existing one, gives no answer and leaves the cache alone |
| Writer.PostgreSQLWriter.Upsert | internal/connector/postgres/writer.go:129-199 | whatever order the row's columns are listed in, the statement merges the row into its key or fails and changes nothing |
| Writer.PostgreSQLWriter.InsertPlain | internal/connector/postgres/writer.go:201-239 | the plain insert succeeds only if the key is new; a table without a primary key always gains one row more |
| Writer.PostgreSQLWriter.Delete | internal/connector/postgres/writer.go:241-277 | removes every row that agrees with all key columns, and an empty key removes nothing |
| Writer.PostgreSQLWriter.ApplyChanges | internal/connector/postgres/writer.go:73-127 | all or nothing: the database becomes that of the whole fold and the affected rows are summed, or it keeps its content |
| Writer.MergeIsPut | internal/connector/postgres/writer.go:163-189 | on rows filed under their own keys the upsert, which spares key columns, is a column-wise merge |
| Writer.DeleteByKey | internal/connector/postgres/writer.go:255-267 | deleting by the full primary key removes that key and nothing else |
| Writer.CommittedBatchIsWrites | internal/connector/postgres/writer.go:90-126 | a batch that commits in idempotent mode has applied exactly its writes, in order, and keeps every row under its key |
| Writer.CommittedBatchCounts | internal/connector/postgres/writer.go:90-126 | it reports the rows it affected, each change counted where those before it left the database: one for a put, none for one that is nothing but a key already there, one for a delete that finds its row |
| Writer.DroppedBatchFails | internal/connector/postgres/writer.go:73-127 | a connection that drops at the commit or at a statement that would write fails the whole batch |
| Writer.PkCacheIsTransparent | internal/connector/postgres/writer.go:280-304 | with fixed metadata, and no schema another one extended by a dot, any answer given is the table's key columns, as its changes mark them or else as the target table has them; only a failing catalog query gives none, and the cache stays right |
| Writer.AcceptedIff | internal/connector/postgres/writer.go:82-126 | a batch is accepted if and only if each of its statements can succeed by itself and the constraints hold of the final content, and the key cache stays right |
| Writer.UpToKeepsCache | internal/connector/postgres/writer.go:279-341 | the key cache stays right wherever and however a batch fails |
| Writer.AcceptanceIsOrderIndependent | internal/connector/postgres/writer.go:82-86 | two orders of one batch that agree key by key are both accepted, with the same result, or both rejected |
| Plain.PlainReplayIff | internal/connector/postgres/writer.go:102-110 | a change accepted without idempotent mode is rejected when redelivered, with any cache, if and only if it puts a non-empty row into a table with a primary key, or into one without whose constraints forbid the duplicate |
| Plain.KeylessReplayDuplicates | internal/connector/postgres/writer.go:201-239 | a row put into a table without a primary key is there twice when its redelivery is accepted |
| Plain.PlainAcceptedIff | internal/connector/postgres/writer.go:82-126 | without idempotent mode a batch is accepted if and only if each statement can succeed by itself, no put into a table with a primary key finds its key taken, and the constraints hold at the end |
| Plain.PlainAffects | internal/connector/postgres/writer.go:102-119 | a plain insert affects one row, a delete as many as there are fewer afterwards |
| Plain.PlainBatchReplayIff | internal/connector/postgres/writer.go:102-110 | an accepted batch is rejected when redelivered, with any cache, if and only if of some key of a table with a primary key its first and its last write are both puts, or the constraints forbid the outcome; an accepted redelivery changes nothing in tables with a primary key and adds every inserted row once more to the others |
| Plain.PlainKeyedReplayIff | internal/connector/postgres/writer.go:102-110 | if all its tables have primary keys, the constraints play no part and an accepted redelivery changes nothing at all |
| Common.DottedInjective | internal/connector/postgres/writer.go:281 | dotted cache keys tell the tables of two schemas apart when neither schema is the other one extended by a dot |
| Common.DottedClashIff | internal/connector/mssql/reader.go:259 | two different schemas have tables that share a key if and only if one of them is the other one extended by a dot |
| Ordering.GroupingDoesNotMatter | internal/connector/mssql/reader.go:127-143 | applying a poll grouped by table gives the database that applying the same rows in commit order gives, for distinct target tables |
| Ordering.CommitOrderOfPoll | internal/connector/mssql/reader.go:127-143 | the rows in commit order are sorted by LSN and the same of every table as the polled ones |
| Ordering.DecisionDoesNotDependOnOrder | internal/connector/postgres/writer.go:82-86 | the server accepts the batch grouped by table if and only if it accepts it in any order that agrees table by table, with the same result |
| Server.RunsAreMaximal | internal/server/grpc_server.go:73-96 | the runs of any stream concatenate to it, none is empty, each has one batch id, and neighbours have different ones |
| Server.RunsUnique | internal/server/grpc_server.go:73-96 | they are the only division of the stream with these properties |
| Server.CdcSyncService.ProcessBatch | internal/server/grpc_server.go:100-147 | the acknowledgment names the batch and carries the LSN and the sequence number it was given, and says OK with the affected rows exactly if the batch committed |
| Server.CdcSyncService.StreamChanges | internal/server/grpc_server.go:41-98 | for every stream the runs due are applied in order and acknowledged one each, all runs at its end and all but the open one if it breaks; if the client is gone at most one more is applied than acknowledged |
| Server.AcksSay | internal/server/grpc_server.go:90-97 | each acknowledgment of a stream names the batch of its run and the sequence number of the run's last change, carries that change's LSN if it has one, and reports what became of the run when its turn came |
| Server.SessionServed | internal/server/grpc_server.go:46-98 | at every point of the receive loop what is stored and acknowledged is that of the finished runs, and the LSN at hand is the last non-empty one of all received changes, not reset per batch |
| Server.AckLsnIsOwn | internal/server/grpc_server.go:90-94 | if the last change of a run carries an LSN, the acknowledged LSN is that one |
| Client.StreamingClient.StreamBatch | internal/client/grpc_client.go:98-146 | every change is stamped in place with the batch id, and the exchange applies the batch once or not at all and returns its acknowledgment or an error |
| Client.OneIdOneRun | internal/client/grpc_client.go:99-102 | a stream with one batch id is one run |
| Client.CompleteAppliesOnce | internal/client/grpc_client.go:120-146 | a complete stream of a non-empty batch is applied once and answered by the one acknowledgment it gives rise to |
| Client.BrokenAppliesNothing | internal/server/grpc_server.go:66-69 | a stream of one batch that breaks applies nothing, however much of it arrived |
| Client.OkMeansCommitted | internal/server/grpc_server.go:112-146 | the acknowledgment carries the client's batch id, the batch's last LSN and the sequence number of its last change, is never PARTIAL, and says OK if and only if the whole batch committed |
| Orchestrator.SyncOrchestrator.FilterChanges | internal/client/sync_runner.go:251-259 | the changes kept are the tracked ones in order, renamed in place |
| Orchestrator.SyncOrchestrator.Settle | internal/client/sync_runner.go:295-335 | the cursor moves to the acknowledged LSN only on OK or PARTIAL, a requested retry ends the cycle well, everything else is an error, and the file follows memory or is untouched |
| Orchestrator.SyncOrchestrator.PollAndAdvance | internal/client/sync_runner.go:205-287 | polling a source and acting on the result is the protocol's poll step; there is a batch to send exactly if the poll returned tracked rows and the save worked, and it is the one specified, which carries them |
| Orchestrator.SyncOrchestrator.DeliverBatch | internal/client/sync_runner.go:289-335 | sending a batch and acting on the answer is the protocol's commit, with its acknowledgment arriving or lost, exactly if the stream is complete and applying succeeds, else its rejection |
| Orchestrator.SyncOrchestrator.SyncSource | internal/client/sync_runner.go:198-337 | one source's turn leaves the system, the server's key cache included, and ends as the function of state and choices in `Turns` says |
| Orchestrator.SyncOrchestrator.TakeTurn | internal/client/sync_runner.go:198-203 | a source without a reader is passed over, any other takes its turn, and a turn that does not proceed ends the cycle |
| Orchestrator.SyncOrchestrator.SyncCycle | internal/client/sync_runner.go:195-340 | a cycle leaves the system where the specified cycle over all choices leaves it, and returns what its turns say: the rows reported if all went well, the rows before a requested retry, else an error |
| Turns.CycleTakesTurns | internal/client/sync_runner.go:195-340 | its turns are those of the sources with a reader, in order and each with its own choice; all proceed unless the cycle ends early, which is with the first turn that does not, and it fails exactly if that turn failed |
| Turns.TurnEndsIff | internal/client/sync_runner.go:198-337 | a turn proceeds if and only if polling, the save after it and, if tracked rows were polled, the exchange, its transaction and the save after the acknowledgment all work, and then reports the rows the transaction affected; it stops the cycle if and only if the server asks for a retry |
| Turns.CycleReturnsRows | internal/client/sync_runner.go:195-340 | a cycle whose turns all go well returns the sum of the rows their acknowledgments reported, one that ends with a requested retry the sum over the turns before it, any other an error |
| Turns.CycleIsRun | internal/client/sync_runner.go:195-340 | a cycle's turns, put together, are one run of the protocol |
| Turns.CycleKeepsReplay | internal/client/sync_runner.go:195-340 | a cycle of the assembled code whose events the environment keeps safe leaves the tables replayable from memory and from disk |
| Orchestrator.Restart | internal/client/state.go:35-55 | a client started again on the state file stands where the protocol's crash leaves it |
| Turns.ExchangeOfCarried | internal/client/sync_runner.go:290-303 | exactly if the stream is complete and applying succeeds, the target becomes what the carried rows' writes make of it, and the acknowledgment, if it arrives, tells the client so with their last LSN |
| Hypotheses.PassedRowIsNeverReadAgain | internal/connector/mssql/reader.go:94-108 | a row at or before the saved position is never polled again, in any run, restarts included |
| Hypotheses.CycleIff | internal/client/sync_runner.go:235-303 | in every state of the invariant, for every poll, whatever reads fail and wherever TOP cuts: with complete rows the cycle keeps replay right if and only if of every key with writes beyond the old cursor and none beyond the new one what was sent ends with the last of them, or nothing of it was sent and the target holds it already |
| Hypotheses.MoveIff | internal/client/state.go:89-112 | the same for any rows beyond a cursor that are sent and any position the cursor is moved to |
| Hypotheses.UnclosedPollLosesRow | internal/client/sync_runner.go:235-303 | from any state and without asking for complete rows, a cycle whose poll left out a row, the only one to write its key, that the cursor then passes breaks replay, be it an insert, an update or a delete: behind a confirmed batch, behind untracked rows, or at the maximum LSN after an empty poll |
| Hypotheses.FailedReadsLoseRow | internal/client/sync_runner.go:235-249 | if every table's read fails, the empty poll moves the cursor to the maximum LSN and a change beyond the old one is lost |
| Hypotheses.PassedUnsentIsLost | internal/client/sync_runner.go:296-303 | a lone insert, update or delete that the cursor passed without its being sent, and that the target does not happen to show, is missing for good |
| Hypotheses.RejectedBatchIsPolledAgainIff | internal/client/state.go:129-136 | a batch that is rejected, or not sent because recording it failed on disk, is polled again if and only if its source had a cursor before |
| Hypotheses.RejectedFirstBatchIsLost | internal/client/sync_runner.go:208-213 | a rejected first batch of a source that then stays quiet is lost |
| Hypotheses.StaleLateCommitBreaksReplay | internal/server/grpc_server.go:54-64 | a batch that commits after newer content of its row was passed breaks replay |
| Hypotheses.LateCommitIff | internal/server/grpc_server.go:54-64 | with complete rows, in every state of the invariant, a late commit keeps replay right if and only if of every key it writes its last write is the last one in the log, or more of the key lies beyond the cursor |
| Hypotheses.ZeroBatchIsNotClosed | internal/connector/mssql/reader.go:139-142 | with batch size zero polls are empty and never closed while tracked rows remain |
| Witnesses.SplitTransactionLosesRow | internal/connector/mssql/reader.go:286-297 | a transaction cut by TOP: a run from a fresh start, confirmed, after which replay is broken |
| Witnesses.EarlyExitLosesRow | internal/connector/mssql/reader.go:139-142 | the early exit leaves the second table's earlier row unread and the cursor passes it |
| Witnesses.SwallowedErrorLosesRow | internal/connector/mssql/reader.go:131-136 | a table whose read error is skipped or swallowed is passed even with room in the batch |
| Hypotheses.SharedTargetBreaks | internal/client/sync_runner.go:251-259 | for every configuration in which two captured tables write to one key of a target table and their order matters: a log over which a run from a fresh start, safe in every other respect, breaks replay |
| Witnesses.SharedTargetBreaksReplay | internal/client/sync_runner.go:251-259 | a concrete one: an insert of each table into the same target row |
| Witnesses.SharedTargetShowsTheOrder | internal/client/sync_runner.go:251-259 | two tables mapped to one target: grouped and in commit order the same rows give different databases |
| Retry.DelayForAttempt | internal/common/types.go:106-115 | the loop computes the capped exponential delay for every attempt and base |
| Retry.DelayDoubles | internal/common/types.go:106-115 | for base 2 the delay is the smaller of the initial delay times 2^n and the cap |
| Retry.DelayIsPower | internal/common/types.go:106-115 | for every base that is not negative the delay is the whole milliseconds of the smaller of the initial delay times base^n and the cap |
| Retry.DelayGrowsToCap | internal/common/types.go:106-115 | for a base of at least 1 delays never shrink with the attempt and never exceed the cap |
| Loop.RunLoop | internal/client/sync_runner.go:148-192 | the loop leaves the system that the specified number of cycles over the given choices leave, each over the logs as they have grown by then; it gives up at the first cycle whose streak of failures reaches the limit, else uses all choices, and waits exactly the specified times |
| Loop.OutcomesReport | internal/client/sync_runner.go:155-187 | what the loop goes by is for each cycle that sum, or a failure |
| Loop.LoopIsRun | internal/client/sync_runner.go:148-192 | the loop, arrivals between its cycles included, is one run of the protocol |
| Loop.LoopKeepsReplay | internal/client/sync_runner.go:148-192 | if its events are safe the tables are replayable from memory and from disk after every cycle, however the logs grow meanwhile |
| Healthy.HealthyCycleIsRound | internal/client/sync_runner.go:195-340 | a cycle without failing reads or first saves that comes to its regular end takes the system where a round of the protocol takes it |
| Healthy.FaultFreeTurnIff | internal/client/sync_runner.go:198-337 | if nothing fails around a source and its tables fit, its turn proceeds if and only if it sends nothing or the target's constraints hold after its batch |
| Healthy.ExecutableIff | internal/connector/postgres/writer.go:129-199 | the statement for a complete row of a table with a primary key can be run if and only if it has operation 3 or an unknown one, or its target table exists and has all captured columns (2, 4) or the key columns (1) |
| Healthy.FaultFreeTurnOfTablesIff | internal/client/sync_runner.go:198-337 | over complete rows of tables whose target tables have the same keys and at least their columns, a turn in which nothing fails proceeds if and only if it polls no tracked row or the constraints hold of what the rows write |
| Healthy.FaultFreeCycle | internal/client/sync_runner.go:195-340 | a cycle in which nothing fails comes to its regular end if the constraints hold along its round |
| Healthy.CycleStaysReceptive | internal/server/grpc_server.go:100-147 | a cycle with failures of any kind leaves the server's key cache right, the target's rows under their keys and the client between cycles |
| Convergence.HealthyLoopConverges | internal/client/sync_runner.go:148-192 | from every state that satisfies the invariant, between cycles and with every source's first batch acknowledged: over resting logs, as many such cycles as the longest remainder has rows leave the target equal to the replicated tables, if these cycles are a safe run |
| Convergence.ClosedLoopConverges | internal/client/sync_runner.go:148-192 | which they are if every poll from the cursors on is closed |
| Convergence.FaultFreeLoopConverges | internal/client/sync_runner.go:148-192 | the same from the inputs of the loop: if nothing fails in that many cycles, the tables fit, and the rounds so determined are a safe run along which the constraints hold, any run of the loop goes on until it is cancelled and leaves the target equal to the replicated tables |
| Convergence.ConvergesAfterHistory | internal/client/sync_runner.go:117-192 | end to end: after a fresh start and a history of any length, with growing logs and faults of every kind, as long as it is safe and ends with every source's first batch acknowledged, such fault-free cycles end with the replicated tables |
| Retry.GivesUpIff | internal/client/sync_runner.go:156-166 | it gives up at a cycle if and only if that one and the ones before it, as many as the limit, all failed |
| Retry.StreakWaits | internal/client/sync_runner.go:168-175 | in a streak of k failures the waits are the delays of the attempts 1 to k |
| Retry.QuietWaits | internal/client/sync_runner.go:176-188 | over a stretch without failures the poll interval is waited once for each cycle that found nothing, and not at all after one that found something |
| Retry.DefaultBackoff | internal/common/types.go:96-103 | with the default configuration the last streak waits 3000 ms in all before the fifth failure ends the loop |

## Left out

- The gRPC transport, TLS, health checks, reconnects, signals, configuration loading, logging and clocks; sending and answering are steps that may fail.
- SQL text, the two engines beyond the effect of the statements issued, and `convertValue`: values are opaque texts, JSON syntax is not modelled, NULL keys and identifier validation do not occur.
- The substrings `categorizeError` looks for: the class of an error is chosen by the environment among RETRY, SCHEMA_MISMATCH and FAILED.
- A transaction that cannot be opened: represented by one that fails at its commit; the two differ only in what the key cache has learned.
- Cursor entries that are null in a hand-edited state file, the `table_name` and time stamp fields, and locking: every `StateManager` method is atomic, as its lock makes it.
- The order and set of capture instances change during a run: fixed here. A multi-table poll is atomic with respect to log appends.
- Orchestrator.SyncOrchestrator.SyncCycle: a batch of a broken or unanswered exchange is applied within the exchange or never; that it may commit later is an event of the protocol (`LateCommit`) and not of the assembled classes.
- Reader.MSSQLReader.ReadTableChanges: a table whose read fails with an error leaves the schema cache alone; in the code it may already hold the table's columns, which it would hold rightly.
- Loop.RunLoop: logs grow between cycles and not within one; reconnecting after a failure is not modelled. The client is not restarted within the loop: that is `Orchestrator.Restart`, the protocol's crash.
- Retry.DelayForAttempt: real arithmetic instead of binary floating point, which is exact for base 2 up to the cap; the wait for the first connection and the wrap-around of its 32-bit counter are not modelled.
- `NewSyncOrchestrator`'s and `Close`'s handling of readers and connections, `SyncMetrics`, and the error table of internal/common/errors.go.
