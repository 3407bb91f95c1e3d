# Ghostferry in Dafny

Ghostferry moves tables from one MySQL server to another while applications keep writing to
the source. It copies pages of locked rows, replays the source's binary log on the target as
compare-and-swap statements, and cuts over once the target has caught up. The design was
sketched in TLA+ and explored on tiny tables; here it is modelled as the Go program does it and
proved for any number of tables, rows, values, binlog entries and interleavings.

`dafny verify dfyconfig.toml` checks the whole project.

## What is proved

1. **The ferry** (`Rows`, `Binlog`, `CopyFilter`, `Protocol`, `History`, `Invariant`,
   `InvariantKept`, `Sharding`, `Convergence`, `Races`, `Stopping`, `Progress`). A state machine
   with one step per action of the application, the table iterators, the streamer, the writer and
   the coordinator. An inductive invariant ties each target row to a moment of the source's
   history no earlier than the replayed prefix of the log; from it follow convergence,
   conservation and the tolerance of retries. A filtered run is shown to be an unfiltered run on
   the projected source. The lock window and stop safety have inductions of their own and
   hold for every filter (`Stopping`), and so does progress: from which states the ferry can
   still come to its end by itself (`Progress`). Each precaution of the program (row locks,
   recording before requesting the stop, connecting before reading the largest key) has a
   lemma with a complete run that goes wrong without it.
2. **The SQL bridge** (`Lexer`, `SqlText`, `SqlReader`, `DmlEvents`, `SqlMeaning`, `RowBatch`,
   `Rewriting`, `GoodRuns`, `EndToEnd`). The text the program prints is lexed, parsed and executed
   under three-valued logic, under the target's own names, and comes out as exactly the steps of
   the state machine, at every moment of every run.
3. **The loops as written** (`BinlogStreaming`, `BinlogWriting`, `Cursors`,
   `ShardedCopyFiltering`, `SpeedLogs`). Classes with the program's fields; what the other
   activities do meanwhile is an argument.
4. **The verifier** (`Reverifying`, `Fingerprints`, `WorkerPools`, `Verdicts`, `Verification`,
   `VerifierSoundness`, `VerifierRuns`, `CutoverVerdict`, `KeyReuse`, `VerifiedFerry`). The
   reverify store, the comparison of fingerprints, the worker pool in every schedule, the
   verdict, the soundness of the verifier as a state machine, the composition of all of these in
   the cutover, and their verdict on what a completed run of the ferry leaves behind.
5. **Two variations** (`Replica`, `JoinedTables`). Running from a replica, and tables that are
   reached through join tables.

Some properties one would hope for are false of the program, and have an example and the
exact condition under which they hold:

- Rows with primary key 0 are never copied, because the cursor starts at 0 and asks for larger
  keys (`Races.ZeroKeyIsNotCopied`). Target and source are equal in full exactly if every such
  row was absent at some moment of the run (`Convergence.ConvergesInFull`).
- The streamer converts a number from an unsigned sharding column to a signed one, so with a
  negative sharding value it takes rows of the shard whose number is larger by 2^64
  (`Races.NegativeShardTakesForeignRow`). All completed runs of a sharded ferry converge exactly
  if the sharding value is not negative or no sharding column admits that number
  (`Races.ShardConvergesIff`); so with signed sharding columns they do for every sharding value
  (`Races.ConvergesByType`). A single run converges whenever that number is not in its log
  (`Convergence.Converges`).
- A page of a joined table on which every reference dangles ends the copy early
  (`JoinedTables.FullGapExists`). The copy is complete exactly if nowhere so many dangling
  references come in a row that they fill a page (`JoinedTables.DeltaCopy`).
- The streamer does not remember the position of a format description, so a stop position
  recorded right after a log rotation is not reached with the log at hand
  (`Stopping.StopAfterRotationWaits`). The loop can be left exactly if the entry before the
  stop position, or a later one, is something else (`Stopping.CanStopIff`). The ferry can come
  to its end by itself exactly if such an entry is in the log, with no aborting one before it
  (`Progress.FinishesIff`).
- A verdict of correct does not cover a row that was changed on one side after that side was
  last read, not delivered since and not in the store either (`VerifierRuns.MissedRowEscapes`).
  It can be trusted in full exactly if the rows that may be missed are none of those the
  verifier answers for (`VerifierRuns.TrustedIffNoneMissed`).
- A sharded run that converges may still raise an alarm, over a key that passed to another shard
  (`VerifiedFerry.ReusedKeyAlarms`). The verdict on a completed run is correct exactly if every
  row of the store that the source has was to be copied, none with key 0 was there all along,
  and no read failed (`VerifiedFerry.VerdictOnFerry`).
- The worker pool is announced to return the first error that occurs, and may return a later one
  (`WorkerPools.LaterErrorReturned`). It returns the first exactly if that one was discovered
  while indices were handed out, or is the only one (`WorkerPools.FirstErrorIff`).

## Assumptions

These are what the program relies on and does not check.

- A table's primary key is one numeric column without negative values, of a type the driver
  hands over as a signed integer or as decimal bytes (`RowData.GetUint64` takes nothing else).
- An update does not change its row's primary key, the log carries full row images, and there
  are no secondary unique keys.
- The target holds none of the rows concerned when the run starts.
- For the statements' texts: the source's rows have all their columns and sit under their own
  primary keys, and so do those the application writes.
- The coordinator's lock stops all writes to the rows that are moved. Writes to other rows,
  such as heartbeats, may go on.
- A sharded run of `Protocol` is about tables with a sharding column, and copies no joined
  tables. The program copies these with the same cursor and does not replay their changes;
  they are the subject of `JoinedTables`.
- Schemas do not change during the run; table and column names contain no backtick.
- The servers run in NO_BACKSLASH_ESCAPES mode, with string literals as in section 9.1.1
  (String Literals) of the MySQL 5.7 Reference Manual.
- A run that ends in a fatal error is a run that stops; nothing is claimed about its target.
- A transaction that is rolled back leaves no trace; one that is retried after having reached
  the target in part or in full does, and that is a step of the model.
- No two tables are given one name on the target.

## Model

| member | source | states |
|---|---|---|
| `Convergence.Converges` | ferry.go:194-284 | in every interleaving that ends, unless its log holds a number that is taken for the sharding value, each row with a positive key is on the target exactly as in the wanted part of the source, and no other row is |
| `Convergence.ConvergesInFull` | cursor.go:74-86 | target and wanted source are equal as a whole if and only if no row with key 0 was there all along |
| `Convergence.InvariantHolds` | tlaplus/ghostferry.tla:613 | the invariant holds of the projected state after every run, not only at its end |
| `Convergence.HeldRowsAreCurrent` | cursor.go:99-143 | at any moment of any run with row locks, for every filter, the rows of a held page are what the source has now |
| `Convergence.NothingLeftBehind` | binlog_streamer.go:112-171 | once the streamer has left its loop, written batches, current batch and channel together are the wanted changes of the whole log, in order |
| `Convergence.ReplayAgain` | binlog_writer.go:57-63 | replaying the log again from any position already passed still brings every settled row to the source's value |
| `Convergence.DoneMeansReplayed` | ferry.go:254-277 | when streamer and writer have returned, every logged change has been replayed |
| `Convergence.DoneRow` | ferry.go:270-277 | at the end a row that was settled or ever absent has the source's value |
| `Convergence.ZeroRowExact` | cursor.go:75-86 | at the end a row with key 0 has the source's value if and only if it was absent at some moment |
| `InvariantKept.StepKeeps` | ferry.go:237-284 | the invariant is inductive: every step of every activity keeps it |
| `InvariantKept.RunKeeps` | ferry.go:237-284 | every run from a good state ends in a good state |
| `Invariant.InitInv` | ferry.go:194-235 | the invariant holds before anything has happened |
| `Invariant.ExecutedIsPrefix` | binlog_writer.go:32-79 | the replayed changes are a prefix of the logged ones, and the next statement is the next change |
| `InvariantKept.NewlySettled` | cursor.go:86-144 | a copying step settles only the row it has just copied, and rows the source does not have at that moment |
| `InvariantKept.CopyKeepsRow` | row_batch.go:43-57 | insert-if-absent of a selected row keeps every row fresh, or overdue and unsettled |
| `InvariantKept.StatementKeepsRow` | binlog_writer.go:81-114 | one compare-and-swap statement advances the replay position and keeps every row |
| `InvariantKept.RetryKeepsRow` | utils.go:28-50 | rewinding to the start of the batch, whatever part of it reached the target, keeps every row |
| `InvariantKept.SourceKeepsPages` | cursor.go:99-106 | no write of the application reaches a row of a page held under row locks |
| `InvariantKept.LeavingIsLate` | binlog_streamer.go:112-112 | the loop can be left only after everything up to the stop position has been handled |
| `InvariantKept.StreamKeepsPosition` | binlog_streamer.go:138-170 | the remembered position is always that of the entries handled, through rotations and skipped format descriptions |
| `InvariantKept.FerryKeepsCutover` | binlog_streamer.go:186-206 | recording and then requesting the stop keeps the recorded position behind every row change |
| `InvariantKept.WriteKeepsZero` | cursor.go:266-266 | a row with key 0 reaches the target only if the source was without it at some moment |
| `History.FreshCas` | dml_events.go:147-158 | compare-and-swap of the next change moves a fresh row to a later moment of the source's history or leaves it at one |
| `History.OverdueCas` | dml_events.go:92-104 | the next change leaves an overdue row overdue, or makes it fresh |
| `History.HistoryRewinds` | binlog_writer.go:57-59 | what is fresh or overdue stays so when the replay position goes back |
| `Binlog.PositionsIncrease` | binlog_streamer.go:138-147 | later in the log is later in position, across any number of file rotations |
| `Binlog.PositionOrder` | binlog_streamer.go:112-112 | positions are totally ordered, by file and then by offset |
| `Binlog.ReachedIff` | binlog_streamer.go:138-170 | a streamer that has handled a stretch of log has reached a position if and only if the entry before it, or a later one handled, is not a format description |
| `Stopping.NeverStopsEarly` | binlog_streamer.go:104-172 | for every filter, a streamer that has left its loop has handled every entry up to the recorded position |
| `Stopping.CanStopIff` | binlog_streamer.go:112-163 | in every run, once the stop is requested, the loop can be left if and only if the entry before the stop position, or a later one handled, is not a format description |
| `Stopping.StopAfterRotationWaits` | binlog_streamer.go:157-163 | a stop recorded right after a rotation leaves a streamer that has handled the whole log waiting |
| `Sharding.RunProjects` | sharding/filter.go:48-72 | every filtered run in whose log no number is taken for the sharding value is, step by step, an unfiltered run on the projected source |
| `Sharding.StepProjects` | sharding/filter.go:153-187 | the projection of a step is enabled in the projected state and leads to the projection of the next state |
| `Sharding.JudgeIsProjection` | sharding/filter.go:162-183 | a change that does not abort is replayed unaltered if the projection sees it and skipped if it does not, if and only if no number in it is taken for the sharding value |
| `Sharding.ApplicableIsProjection` | binlog_streamer.go:240-264 | the events handed to the listeners are exactly the changes of the projected source, in order |
| `Sharding.CrossingAborts` | sharding/filter.go:177-181 | an update that moves a row into or out of the shard always aborts |
| `CopyFilter.AbortsIff` | sharding/filter.go:162-181 | a change aborts if and only if it is to a copied table with a sharding column and one of its images has no number there, or both are present and just one of them, taken as signed, is the sharding value |
| `CopyFilter.ReplayedIff` | sharding/filter.go:174-187 | a change is replayed if and only if it is to a copied table and, in a sharded run, does not abort and has an image whose number, taken as signed, is the sharding value |
| `CopyFilter.AbortsIffCrossing` | sharding/filter.go:174-181 | with readable numbers none of which is taken for the sharding value, a change aborts if and only if it is an update between a row to be copied and one that is not |
| `Sharding.QuietProjects` | sharding/sharding.go:178-182 | writes to other rows, which go on after the lock, are no changes of the projected source |
| `CopyFilter.TestAgreesIff` | sharding/filter.go:238-249 | the streamer's test and SQL equality agree on all numbers a column admits if and only if the sharding value is not negative or the column does not admit the number larger by 2^64 |
| `Sharding.ProjectReplay` | sharding/filter.go:50-53 | projecting commutes with applying changes, and projected changes carry the right old images |
| `Sharding.PageProjects` | sharding/filter.go:65-71 | the page of a filtered SELECT is the page of an unfiltered one on the projected table |
| `ShardedCopyFiltering.ShardedCopyFilter.ApplicableEvent` | sharding/filter.go:153-187 | the column scan decides as the protocol's filter for the tables' schemas does, whose decisions `CopyFilter.AbortsIff` and `CopyFilter.ReplayedIff` spell out |
| `ShardedCopyFiltering.ShardedCopyFilter.ColumnThatDecides` | sharding/filter.go:154-161 | that filter goes by the first column with the name of the sharding key, in primary-key tables by the first with the name of the primary key, and knows no column if and only if there is none |
| `Races.UnlockedCopyLosesUpdate` | tlaplus/ghostferry.tla:259-269 | without row locks, for any two different rows there is a complete run that ends with the one on the source and the other on the target |
| `Races.EarlyStopLosesInsert` | binlog_streamer.go:188-192 | requesting the stop before the position is recorded can lose any insert |
| `Races.LateConnectLosesInsert` | ferry.go:206-214 | reading the largest key before the start position is fixed can lose any insert |
| `Races.ZeroKeyIsNotCopied` | cursor.go:75-86 | the program as written leaves any row with key 0 behind |
| `Races.NegativeShardTakesForeignRow` | sharding/filter.go:242-244 | the program as written, with any negative sharding value and any sharding column that admits the number larger by 2^64, replays a row of the shard of that number |
| `Races.ShardConvergesIff` | sharding/filter.go:238-249 | all completed runs on a source that keeps to its column types converge if and only if the sharding value is not negative or no sharding column admits the number larger by 2^64 |
| `Races.ConvergesByType` | dml_events.go:218-234 | they converge for every sharding value if no sharding column goes beyond 2^63 - 1, and with a BIGINT UNSIGNED column exactly for those from 0 on |
| `Progress.FinishesIff` | ferry.go:237-284 | in every state of every run, for every filter, the ferry can come to its end without any step of the application or the source if and only if the streamer has left its loop or can, with the log at hand and no aborting entry before |
| `Progress.OpenFinishes` | ferry.go:254-277 | from such a state iterators, streamer, writer and coordinator have steps that end in everything having returned |
| `Progress.FinishedWasOpen` | binlog_streamer.go:112-171 | a run to the end in which the source does nothing starts from such a state |
| `Progress.Drain` | binlog_writer.go:32-67 | from every state of the writer there are steps that empty its channel |
| `Progress.PageExists` | cursor.go:99-125 | there is always a next page: the smallest matching rows above the last key |
| `BinlogStreaming.BinlogStreamer.Run` | binlog_streamer.go:104-172 | the loop is left in the first turn that finds the flag set and the recorded position reached, dies in the first that finds an aborting event or a failing listener, and otherwise handles an entry in every turn that finds one; every listener has then been given the applicable changes of all entries handled, in order, and on leaving that is everything up to the recorded position |
| `BinlogStreaming.BinlogStreamer.TakeTurn` | binlog_streamer.go:112-170 | one turn leaves the loop if and only if the flag is set and the entry before the recorded position, or a later one handled, is not a format description; it dies if and only if it finds an entry that aborts or that a listener fails on |
| `BinlogStreaming.BinlogStreamer.OneEnd` | binlog_streamer.go:104-172 | the turns determine how the loop ends |
| `BinlogStreaming.BinlogStreamer.HandleEvent` | binlog_streamer.go:138-170 | one event moves the position and gives every listener its applicable changes; it fails if and only if it is a rows event that aborts or that a listener fails on, and then the position stays |
| `BinlogStreaming.BinlogStreamer.HandleRowsEvent` | binlog_streamer.go:226-274 | every listener gets the applicable changes of the event; it fails exactly on a failing listener or an aborting filter |
| `BinlogStreaming.BinlogStreamer.FilterEvents` | binlog_streamer.go:240-264 | the filter loop yields the applicable changes in order, or fails exactly if one of them aborts |
| `BinlogStreaming.BinlogStreamer.CallListeners` | binlog_streamer.go:266-271 | every listener gets all the events, appended to what it had, up to the first that fails |
| `BinlogStreaming.BinlogStreamer.FlushAndStop` | binlog_streamer.go:186-206 | the stop flag is set only with the server's position recorded |
| `BinlogStreaming.BinlogStreamer.ExitIsSafe` | binlog_streamer.go:112-112 | the loop condition is false only when everything up to the recorded position is handled |
| `BinlogStreaming.BinlogStreamer.ExitIff` | binlog_streamer.go:112-163 | the loop condition is false if and only if the entry before the recorded position, or a later one handled, is not a format description |
| `BinlogWriting.BinlogWriter.Run` | binlog_writer.go:32-67 | the loop is left only because the channel is closed and drained, and then everything has been written, in order, in non-empty batches of at most the batch size; it ends otherwise exactly as the tries for the next batch do, so never if for every batch one succeeds; nothing is lost or reordered |
| `BinlogWriting.BinlogWriter.FillBatch` | binlog_writer.go:41-55 | the inner loop loses and reorders nothing, and stops at the batch size or with an empty channel |
| `BinlogWriting.BinlogWriter.BufferBinlogEvents` | binlog_writer.go:73-79 | events go to the end of the channel in order, as many as wanted or as its capacity allows |
| `BinlogWriting.BinlogWriter.WriteEvents` | binlog_writer.go:57-63 | a batch is written if and only if one of the allowed tries succeeds before any is cancelled, and is given up if and only if all of them fail; it reaches the target at least once |
| `BinlogWriting.BinlogWriter.Receive` | binlog_writer.go:35-39 | the blocking receive yields nothing only from a closed and drained channel |
| `BinlogWriting.WithRetriesContext` | utils.go:21-55 | the retry loop ends with the first success, the last allowed try, a try that was cancelled or a context that is done, each exactly if it comes first, and counts how often the work took effect |
| `BinlogWriting.WithRetries` | utils.go:17-19 | the same without a context |
| `Cursors.Cursor.Each` | cursor.go:74-147 | every SELECT asks for keys above that of the last row delivered; on success every key from 1 to the maximum was delivered or absent at some SELECT, and the last page was empty or the maximum reached; it fails only if a SELECT or the callback does; it terminates |
| `Cursors.Cursor.KeysInOrder` | cursor.go:143-143 | if pages come in the order of their keys, so do all keys delivered, and none is delivered twice |
| `Cursors.AllCovered` | cursor.go:234-240 | a page covers every key up to its last row, and an empty page covers all |
| `Cursors.PageAdvances` | cursor.go:127-132 | on a page that is not empty the position always advances, so the error for this case does not occur |
| `Lexer.LexText` | config.go:103-103 | lexing undoes spelling: well-spaced pieces come back as exactly their tokens, whatever the strings contain |
| `Lexer.IdentifierRecovered` | ferry.go:29-31 | a quoted identifier is read back as it was if and only if it contains no backtick |
| `SqlReader.ScriptRoundTrip` | binlog_writer.go:84-108 | the printed text of any script lexes and parses back to exactly its statements and literals, in order |
| `SqlText.ReadBack` | dml_events.go:346-352 | decimal text reads back as the number it was made from |
| `DmlEvents.AppendEscapedString` | dml_events.go:414-427 | the loop spells the string literal with every quote doubled |
| `DmlEvents.AppendEscapedBuffer` | dml_events.go:429-442 | the same for binary literals |
| `DmlEvents.AppendEscapedValue` | dml_events.go:341-374 | the buffer grows by the text of the value, kind by kind: NULL, the signed decimal, 1 or 0, the quoted string, or the quoted string behind _binary |
| `SqlMeaning.ValueTokens` | dml_events.go:341-374 | the server's lexer reads that text as exactly the tokens of the value, kind by kind |
| `SqlMeaning.LiteralMeans` | dml_events.go:341-374 | the literal written for a driver's value is stored as the value that was meant |
| `DmlEvents.BuildStringListForValues` | dml_events.go:280-292 | the loop builds the spelling of the value list |
| `DmlEvents.BuildStringMapForWhere` | dml_events.go:294-314 | the loop builds the spelling of the conjunction, with IS NULL for NULL |
| `DmlEvents.BuildStringMapForSet` | dml_events.go:316-330 | the loop builds the spelling of the assignments |
| `DmlEvents.AsSQLString` | dml_events.go:92-104 | an error if and only if an image has another number of values than the table has columns, and otherwise the spelling of the event's statement |
| `DmlEvents.TransactionText` | binlog_writer.go:84-108 | the query buffer is the spelling of BEGIN, the statements in order for the rewritten tables, and COMMIT |
| `DmlEvents.TargetName` | binlog_writer.go:87-97 | a database or table that is rewritten gets its other name, and any other keeps its own |
| `SqlMeaning.WhereIsOldImage` | dml_events.go:294-314 | under three-valued logic the WHERE clause is TRUE exactly of a row null-safe equal to the old image |
| `SqlMeaning.StatementIsCas` | dml_events.go:147-158 | executing the statement of any event is compare-and-swap of the change it describes |
| `SqlMeaning.InsertIsCas` | dml_events.go:92-104 | INSERT IGNORE of an event inserts its row exactly if the key is absent |
| `SqlMeaning.DeleteIsCas` | dml_events.go:190-200 | DELETE removes the row exactly if it equals the old image |
| `SqlMeaning.TransactionIsCas` | binlog_writer.go:81-114 | the server that reads the transaction text and executes it does exactly the protocol's replay of the batch |
| `SqlMeaning.NothingBeforeCommit` | binlog_writer.go:84-112 | all or nothing: wherever the server stops before the end of the transaction text, none of its changes is to be seen |
| `RowBatch.FlattenRowData` | row_batch.go:59-70 | the index loops lay the rows end to end |
| `RowBatch.GroupedFlat` | row_batch.go:59-70 | cutting the flattened arguments into tuples gives the rows back |
| `RowBatch.AsSQLQuery` | row_batch.go:43-57 | an error exactly for a row of the wrong length, and otherwise the query text and the flattened arguments |
| `RowBatch.QueryRead` | row_batch.go:49-54 | the query text parses as the column list and one tuple of placeholders per row |
| `RowBatch.QueryInsertsPage` | row_batch.go:43-70 | executing the query with the flattened arguments inserts each row in turn where its key is absent |
| `Rewriting.RenamedCasAll` | binlog_writer.go:87-97 | replaying a batch under the target's names is replaying it and then changing the names, if no two tables are given one name |
| `Rewriting.RenamedInsertRows` | batch_writer.go:36-46 | the same for inserting the rows of a page |
| `Rewriting.MergedTablesCollide` | binlog_writer.go:87-97 | two tables given one name lose a row whenever they insert one key |
| `GoodRuns.TargetIsGood` | dml_events.go:205-217 | in every state of every run from a source with well-formed rows, in which well-formed rows are written, the target has only well-formed rows, of the tables that are copied |
| `EndToEnd.TransactionIsSteps` | binlog_writer.go:81-114 | at every moment of such a run at which a batch is written, sending its text, for the first time or again, moves the server's database, under its names, as the protocol's statement steps for the whole batch |
| `EndToEnd.QueryIsSteps` | batch_writer.go:30-63 | at every moment of such a run, sending the query of a held page moves the server's database, under its names, as the protocol's insert steps for all its rows, after which the page can be released |
| `Reverifying.ReverifyStore.constructor` | iterative_verifier.go:50-64 | a new store is empty and counts 0 |
| `Reverifying.ReverifyStore.Add` | iterative_verifier.go:66-86 | the row is in the store and no other has changed; the counter is the number of distinct rows, modulo 2^64 |
| `Reverifying.ReverifyStore.FlushAndBatchByTable` | iterative_verifier.go:88-119 | the batches hold every row exactly once, each batch of one table, full except possibly the last of its table; the store is empty afterwards |
| `Reverifying.ReverifyStore.BatchTable` | iterative_verifier.go:93-112 | one table's rows are added to the batches, each once and in full batches before the last |
| `Fingerprints.CompareHashes` | iterative_verifier.go:579-601 | the mismatches are exactly the keys on one side only or with different fingerprints, each once |
| `Fingerprints.FingerprintIsExact` | iterative_verifier.go:652-666 | unless the hash collides on what is hashed, fingerprints are equal if and only if all shown values are |
| `Fingerprints.ShownIsExact` | iterative_verifier.go:658-658 | values of one column are shown alike if and only if they are equal or are NULL and the string 'NULL' |
| `WorkerPools.EverySchedule` | utils.go:89-144 | in every schedule each index is handed out once, slots hold their worker's latest result, and reported errors are the failures that happened |
| `WorkerPools.NoErrorIffAllSucceeded` | utils.go:86-144 | the pool returns no error if and only if every index was processed, once, and none failed; an error returned did occur |
| `WorkerPools.ReturnedError` | utils.go:113-144 | the error returned is the first failure if that was discovered while indices were handed out, or else the last one |
| `WorkerPools.FirstErrorIff` | utils.go:86-88 | it is the first failure, as announced, if and only if that was discovered or is the only one |
| `WorkerPools.LaterErrorReturned` | utils.go:138-142 | there is a schedule with two failures that returns the second |
| `WorkerPools.FailureStays` | utils.go:101-110 | the result of a failing worker is never overwritten |
| `WorkerPools.NoDeadlock` | utils.go:117-131 | until the pool returns somebody can always go on; the error channel never blocks a worker |
| `Verdicts.VerdictIsExact` | iterative_verifier.go:403-480 | in every schedule the verdict is correct without error if and only if no batch errors or, in the cutover, mismatches, and then all were compared |
| `Verdicts.SumUp` | iterative_verifier.go:461-479 | the loop over the slots gives the first result that errored or failed, or else the last result, or none if there is none |
| `VerifierSoundness.VerdictIsSound` | iterative_verifier.go:218-285 | a verdict of correct means that every row of the source that is scanned for has the same fingerprint on the target, unless it was changed on one side after that side was last read, not delivered since and not stored |
| `VerifierRuns.TrustedIffNoneMissed` | iterative_verifier.go:278-285 | a verdict of correct means that all rows agree, in every run that misses only rows from a given set, if and only if that set holds no key the verifier answers for |
| `VerifierRuns.MissedRowEscapes` | iterative_verifier.go:403-432 | a change or a deletion on the target after a matching comparison, with no delivery after it, can end in a verdict of correct |
| `VerifierRuns.UsualOrderIsCompared` | iterative_verifier.go:503-522 | a row changed on the source, delivered and then changed on the target waits in the store for the cutover's comparison |
| `CutoverVerdict.CutoverIsSound` | iterative_verifier.go:278-285 | the flushed store, the pool in any schedule and the summing up together: a correct verdict means that every row that matters agrees, unless it was missed |
| `CutoverVerdict.PoolReports` | iterative_verifier.go:403-480 | whatever verdict they arrive at without an error is the one the state machine reports after comparing the same rows |
| `CutoverVerdict.OutcomeIsExact` | iterative_verifier.go:403-480 | that verdict is correct if and only if every row of the store agrees and no read failed |
| `CutoverVerdict.MismatchMeansDiffers` | iterative_verifier.go:534-577 | a batch mismatches if and only if one of its rows differs |
| `VerifiedFerry.VerdictOnFerry` | sharding/sharding.go:190-214 | after a completed run of the ferry the cutover's verdict is correct if and only if no read failed and every row of the store that the source has was to be copied, none with key 0 having been there all along |
| `VerifiedFerry.NoAlarm` | sharding/sharding.go:202-214 | a completed run that copies whole tables raises no alarm |
| `VerifiedFerry.AgreesIff` | iterative_verifier.go:534-577 | after a completed run a key looks the same on both sides if and only if it was one for the ferry or is on neither |
| `VerifiedFerry.RelevantRowsAgree` | iterative_verifier.go:218-240 | every row the verifier answers for agrees after a completed run, even if it was missed |
| `VerifiedFerry.ReusedKeyAlarms` | iterative_verifier.go:643-650 | a converged run in which a key passed from this shard to another leaves a delivered key that looks different on the two sides |
| `KeyReuse.KeyChangesHands` | sharding/filter.go:162-183 | such a run, for any two rows of the two shards: the insert and the delete are replayed, the other shard's insert is skipped |
| `VerifierSoundness.AlarmIsReal` | iterative_verifier.go:278-285 | a verdict of incorrect in the cutover means that some row, of a table that is not ignored, does differ |
| `VerifierSoundness.VerifiedRowsMatch` | iterative_verifier.go:652-666 | after a verdict of correct, corresponding values of a row that was not missed are equal or NULL and 'NULL', unless the hash collides |
| `VerifierSoundness.StepKeeps` | iterative_verifier.go:355-401 | in every step each row that matters stays unscanned, stored, under comparison, stale on one side, or equal on both sides |
| `VerifierSoundness.ConcludeKeepsRow` | iterative_verifier.go:403-457 | a comparison that finds no difference leaves a row that is the same now or will be looked at again |
| `VerifierSoundness.DeliverKeeps` | iterative_verifier.go:503-522 | a delivery puts the row into the store, unless its table is ignored |
| `VerifierSoundness.NothingToScan` | iterative_verifier.go:355-362 | if the source has no key above 0, the verdict is correct whatever the target holds |
| `VerifierSoundness.Unnoticed` | iterative_verifier.go:355-362 | every extra row on the target, and every missing row with key 0, can go unnoticed |
| `Replica.MasterReachesTarget` | ferry.go:322-333 | when the ferry runs from a replica, the target ends with the wanted part of the master, including every write before the lock, while writes to other rows go on, unless the replica's log holds a number that is taken for the sharding value |
| `Replica.SameWanted` | ferry.go:316-321 | a replica that lacks only changes to other rows has the same rows to be moved as the master |
| `Replica.GoalReached` | wait_until_replica_is_caught_up_to_master.go:56-79 | a reported position at or beyond the master's position means that the replica has applied every row change that matters |
| `Replica.HopKeeps` | wait_until_replica_is_caught_up_to_master.go:81-124 | in every step the replica is the master some entries ago, and read-only only with all of the master's changes that matter |
| `Replica.SkippingTheWaitLosesInsert` | ferry.go:323-330 | without the wait any row inserted on the master before the lock can be lost |
| `Replica.Wait` | wait_until_replica_is_caught_up_to_master.go:81-124 | the first poll that does not leave the loop waiting decides: it succeeds if and only if that one is at or beyond the goal, fails if and only if it could not be read, and times out if and only if it is short of the goal after the timeout, of which 0 stands for the longest there is |
| `JoinedTables.DeltaCopy` | sharding/filter.go:103-118 | the copied rows, and no others, are added to the target with identical content; they are those of the pages asked for, each from the largest key of the one before, until one is empty or the maximum is copied; all referenced rows are copied if and only if no gap of dangling references fills a page |
| `JoinedTables.StopIsExact` | cursor.go:121-125 | an empty page leaves nothing behind if and only if no gap fills a page |
| `JoinedTables.NoDangling` | sharding/sharding.go:235-245 | without dangling references no gap fills a page, so the copy after the lock is complete |
| `JoinedTables.FullGapExists` | sharding/filter.go:110-113 | for every page size there are join tables with which the first page holds no row and a referenced row is left behind |
| `JoinedTables.FullGapStops` | cursor.go:121-125 | after a row that is followed by a page of dangling references the next page is empty |
| `SpeedLogs.DataIteratorState.UpdateLastSuccessfulPK` | data_iterator.go:62-75 | the next slot gets the sum of the last successful keys of all tables, modulo 2^64, and no other slot changes |
| `SpeedLogs.DataIteratorState.Earliest` | data_iterator.go:128-131 | the backward walk passes only slots that are set, goes round at most once, and stops only at a total of 0 or the start |
| `SpeedLogs.DataIteratorState.EstimatedPKProcessedPerSecond` | data_iterator.go:120-139 | the rate is the difference from the oldest total that counts to the sum over all tables, modulo 2^64, over the time between them, or 0 before anything is copied |
| `SpeedLogs.Quotient` | data_iterator.go:138-138 | the rate times the seconds is the number of keys; over no time it is infinite, or not a number if there were no keys |
| `SpeedLogs.TotalUpdate` | data_iterator.go:66-67 | setting one table's key changes the sum over all tables by the difference |

## Left out

- Fair scheduling: the model says from which states a run can end, not that every schedule ends it; retries may go on for ever.
- Errors reported as fatal, and what the error handlers do then.
- Updates that change a primary key: the program takes the key of the new row only.
- The cache of prepared statements, table filters, and loading of schemas: they would only add easy members.
- DmlEvents.AppendEscapedValue: does not model float columns, whose text the server reads back only up to rounding; collations and character sets are left out as well, and values are compared exactly.
- The hash function itself, and the text of the query that asks for fingerprints.
- The text of the SELECT statements: a SELECT is modelled by the rows it returns.
- Binlog files are numbered rather than named, and offsets do not wrap at 2^32.
- Throttling, timestamps, metrics, logging, the control server and the HTTP callbacks.
- The verifier in the background, its one-off mode, its limits on rounds and downtime, and the checksum verifier; any number of rounds is allowed in the model.
- The text of the verdict's message, which names the mismatched keys.
- The delays between retries; a read that fails and is retried leaves no trace.
- SpeedLogs.DataIteratorState.EstimatedPKProcessedPerSecond: divides exactly, without the rounding of floating point.
- JoinedTables.DeltaCopy: rows of the joined table are taken as immutable, which is what the program demands of them.
- Primary-key tables, which are copied last and hold one row per shard.
