# Percona Binlog Server, modelled and proved in Dafny

The server copies a MySQL replication stream into files, object by object, and has to resume after
timeouts, crashes and purges without losing or repeating a transaction. The model follows the code
from the wire to the disk.

* **Names and index** (`BinlogNames`), **timestamp ranges** (`TimestampRange`).
* **Storage engine.** `StorageModel` holds the state of `binsrv::storage` over a backend that records
  every disk it passes through; `StorageRuns` shows that every schedule of checkpoints refines one
  append-only log, `Checkpoints` when data reach the disk; `Recovery`, `CrashSafety` and `Purge` treat restarts
  after a crash anywhere;
  `StorageClass` is the storage as a class whose methods are proved against these functions.
* **Streaming.** `ReaderContext` is the automaton that checks the event stream, `Refusals` the language it
  accepts, `Streaming` the event loop on the log, `Alignment`, `Connections`, `GtidResume` and `Sessions` the exactly-once argument for
  replication by position and by GTID set. `Application` and `EndToEnd` carry it over to the real storage
  state and to crashes, `PurgedPast` and `Restarts` to purges, `StorageHistory` to whole histories on disk;
  `EventLoop` is the loop over the objects.
* **Rewrite mode.** `RewriteMode`, `RewriteCrashes` and `RewriteSessions` for the generated files on the log,
  `RewriteJournal` for the events handed over to be written to each of them, `RewriteStorage` and `RewriteHistory`
  for the same on the storage and for whole histories on disk, `RewriteRotate` for the place of ROTATE, `Rewriter`
  and `TaggedCodec` for the renumbering, for the sizes that contain themselves and for the rewritten bytes.
* **Queries** (`Search`), **atomic replacement of a file** (`AtomicPut`).
* **Codecs.** `VarlenInt` and `ByteSpans` for fixed, packed and variable-length integers; `Wire`,
  `RowsAndFrames`, `QueryCodec` and `GreetingCodec` for the MySQL client/server protocol, `WireFormat` for the
  bytes that travel.

How the pieces are modelled:

* An object is kept parsed: a payload is a byte sequence, the index is text, JSON metadata is a record.
  A stream write is not durable, so after a crash a payload may be any prefix of what was written; a put
  is atomic, and a directory entry counts as durable only after the directory was synced.
* A GTID set is a finite set. A clock reading is a parameter of the call that takes it.
* `Err` stands for a raised exception; a failed `assert` of `open_binlog` is `Err` as well, and where asserts
  matter the lemmas say so.
* The source server is a list of binlog files with a grammar for their events. A connection delivers any
  prefix of what the server sends, and ends in a timeout or in a crash.

## Findings

* `close_binlog` drops an incomplete tail but keeps its timestamps (src/binsrv/storage.cpp:279-290). A source file
  that ends after FORMAT_DESCRIPTION and PREVIOUS_GTIDS, followed by another file, then makes the next
  `open_binlog` fail its asserts; with asserts compiled out the next file gets foreign timestamps.
  `StorageRuns.OpenAfterCloseIff` and `StorageRuns.LeakedTimestamps` give the exact condition,
  `Application.AppConnectionIff` lifts it to connections, `EndToEnd.BareSourceFails` is a concrete source.
* In rewrite mode ROTATE does not always stay the last event of its file. A crash after a file got its ROTATE and
  before the next file exists leaves a directory that opens again with that finished file as the last one
  (`RewriteRotate.CrashBetweenFiles`); the next connection continues it behind the ROTATE. The first transaction of a
  connection lands behind a ROTATE iff the last stored file is finished (`RewriteRotate.FirstTransaction`), and over
  whole histories every other ROTATE is the last event of its file (`RewriteHistory.RewriteOnDisk`).
  `RewriteRotate.RotateIsNotAlwaysLast` is a run from an empty directory.
* A GTID event that declares a transaction shorter than the event itself is accepted
  (`Refusals.OverdrawnIsAccepted`); everything behind it is then refused (`Refusals.OverdrawnIsStuck`), so nothing of
  the transaction is stored. This is the only difference between the automaton and the file grammar
  (`Refusals.ReaderAcceptsIff`).
* After a finished purge the storage opens again iff the system refused to remove no object of a purged file
  (`Purge.PurgedReopensIff`).

## Model

| member | source | states |
|---|---|---|
| BinlogNames.ParseOfStr | src/binsrv/events/composite_binlog_name.cpp:62-107 | Parsing the printed form of a binlog name gives the name back. |
| BinlogNames.Parse | src/binsrv/events/composite_binlog_name.cpp:62-90 | Whatever parses is a legal name and prints as the text it came from; everything else is refused. |
| BinlogNames.ParseIff | src/binsrv/events/composite_binlog_name.cpp:36-90 | A text parses iff it is a non-empty base without slashes, a dot and six digits that are not all zero. |
| BinlogNames.StrInjective | src/binsrv/events/composite_binlog_name.cpp:92-107 | Different names print differently. |
| BinlogNames.Next | src/binsrv/events/composite_binlog_name.hpp:51-53 | The next name keeps the base and adds one to the number, and does not exist after number 999999. |
| BinlogNames.ClassifyOfRender | src/binsrv/storage.cpp:71-131 | The kind of an object (payload, metadata, index, storage metadata) can be told from its name alone. |
| BinlogNames.IndexRoundTrip | src/binsrv/storage.cpp:506-581 | Loading a saved index yields the same list in order iff the names are distinct and without line breaks; otherwise it is refused. |
| BinlogNames.LineIff | src/binsrv/storage.cpp:506-560 | A line of the index is accepted iff it is a dot, at least one slash and the printed name of a file. |
| BinlogNames.IndexIff | src/binsrv/storage.cpp:506-560 | An index text is accepted as a list of names iff its non-empty lines are the entries of these names, in order, and no name occurs twice. |
| TimestampRange.RangeOfIsExact | src/util/ctime_timestamp_range.cpp:24-62 | Feeding timestamps one by one yields their true minimum and maximum, zeros not counted. |
| TimestampRange.ExactIsUnique | src/util/ctime_timestamp_range.cpp:24-62 | There is only one exact range of a list of timestamps. |
| TimestampRange.RangeOfConcat | src/util/ctime_timestamp_range.cpp:51-62 | Adding one range to another gives the range of both lists together. |
| TimestampRange.BoundsRoundTrip | src/util/ctime_timestamp_range.cpp:24-35 | A range is rebuilt from its two stored bounds. |
| TimestampRange.CtimeTimestampRange.AddOne | src/util/ctime_timestamp_range.cpp:37-49 | The object's new range is the old one with one timestamp added. |
| TimestampRange.CtimeTimestampRange.Add | src/util/ctime_timestamp_range.cpp:51-62 | The object's new range is the old one joined with the other. |
| TimestampRange.CtimeTimestampRange.Clear | src/util/ctime_timestamp_range.hpp:44-47 | The object forgets all timestamps and is the empty range again. |
| StorageModel.WriteKeeps | src/binsrv/storage.cpp:221-277 | Writing an event flushes everything complete iff there is something complete and the checkpoint size or the checkpoint interval has been reached since the last checkpoint; otherwise the disk stays as it is. Either way records, disk, buffer and the sets and ranges derived from it agree with the log. |
| StorageModel.FlushOpKeeps | src/binsrv/storage.cpp:301-307 | A flush moves exactly the complete part of the buffer to disk, sets and ranges included, and does nothing if there is none. |
| StorageModel.DiscardKeeps | src/binsrv/storage.cpp:292-299 | Discarding removes exactly the unfinished transaction, timestamps and sequence number included. |
| StorageModel.CloseKeeps | src/binsrv/storage.cpp:279-290 | Closing flushes what is complete and drops the rest, except for the incomplete timestamps. |
| StorageModel.OpenNewKeeps | src/binsrv/storage.cpp:167-219 | Opening an unknown name adds an empty file with the GTIDs so far as its previous set; its asserts pass iff no incomplete timestamps are left. |
| StorageModel.OpenExistingKeeps | src/binsrv/storage.cpp:167-219 | Reopening the last file finds a stream as long as its record says, so no assert about offsets can fire. |
| StorageModel.OpenOtherFails | src/binsrv/storage.cpp:167-192 | Opening while a file is open, or an older file, raises. |
| StorageModel.GetGtidsTelescopes | src/binsrv/storage.hpp:113-132 | The reported GTIDs are the first previous set and all added sets together. |
| StorageRuns.StepRefines | src/binsrv/storage.cpp:167-307 | Each successful call keeps the storage invariant and does to the append-only log what the simple log operation does. |
| StorageRuns.FailsIff | src/binsrv/storage.cpp:167-307 | A call raises exactly when the log refuses it or an open finds left-over timestamps. |
| StorageRuns.PurgingRefuses | src/binsrv/storage.cpp:166-307 | A storage opened for purging refuses every call of the streaming mode. |
| StorageRuns.RunRefines | src/binsrv/storage.cpp:167-307 | Any run of calls, with any clock and checkpoint settings, ends in a storage that stands for the log of the same run. |
| StorageRuns.CheckpointingIsInvisible | src/binsrv/storage.cpp:221-307 | After any run, stream plus complete buffer are the magic bytes and all complete transactions, the rest of the buffer is the unfinished one, and complete data left in the buffer stays below the checkpoint size. |
| Checkpoints.FlushedInTime | src/binsrv/storage.cpp:221-307 | In any run with a steady clock, whatever was complete at some time is on disk after any write at least the checkpoint interval later. |
| Checkpoints.CheckpointsApart | src/binsrv/storage.cpp:221-290 | In any run, a write that reaches the disk comes at least the checkpoint size or the checkpoint interval after every earlier checkpoint of the file and after its opening. |
| StorageRuns.MetadataIsExact | src/binsrv/storage.cpp:467-504 | In every reachable state the stored bounds, sequence number, size and GTID sets of each file are those of the events flushed to it. |
| StorageRuns.GtidChain | src/binsrv/storage.cpp:432-452 | Each previous set is the previous and the added set of the file before. |
| StorageRuns.OpenAfterCloseIff | src/binsrv/storage.cpp:279-290 | After a close the next new file opens iff every timestamp of the dropped tail is zero. |
| StorageRuns.LeakedTimestamps | src/binsrv/storage.cpp:279-290 | Without asserts the next file's range mixes in the dropped timestamps; it is exact iff those are zero or equal to its own. |
| Recovery.SavedIndex | src/binsrv/storage.cpp:571-581 | In every reachable storage the saved index exists iff there are files, is never empty, and loads back as the record names in order iff none has a line break. |
| Recovery.LoadOfDisk | src/binsrv/storage.cpp:71-131 | Opening the disk of a log succeeds with its records iff no name contains a line break. |
| Recovery.OnlyListedObjects | src/binsrv/storage.cpp:546-569 | Equal counts of listed and present objects leave no room for an orphan. |
| Recovery.LoadAcceptsIff | src/binsrv/storage.cpp:44-148 | A directory is accepted iff it is empty, holds nothing but the right mode, or consists of the mode, an accepted index and, for exactly the listed files, metadata with GTID sets as the mode demands and a payload of the recorded size; the records are then those of the listed files in order. |
| Recovery.AcceptedImage | src/binsrv/storage.cpp:546-719 | An accepted directory whose objects are cut copies is the complete disk of the listed files. |
| CrashSafety.CrashRecovery | src/binsrv/storage.cpp:71-131 | After a crash at any step of any call a restart refuses, or finds exactly the disk of before or of after the call. |
| CrashSafety.RestartKeeps | src/binsrv/storage.cpp:53-131 | A restart on the disk of a log satisfies the storage invariant again with an empty buffer. |
| CrashSafety.FirstStart | src/binsrv/storage.cpp:53-131 | An empty directory opens as an empty storage. |
| CrashSafety.LifeStep | src/binsrv/storage.cpp:53-307 | One call does to the log what it says; a crash inside one and an accepted restart leave the files of before or of after the call and an empty buffer. |
| CrashSafety.LifeIsSafe | src/binsrv/storage.cpp:53-307 | Over any sequence of calls, crashes and restarts the states have a run of logs they agree with exactly, each following from the one before, and nothing that was ever on disk is lost. |
| Purge.SurvivingRecords | src/binsrv/storage.cpp:309-402 | The records that survive a purge are unchanged and their GTID chain goes on from the purged files. |
| Purge.PurgeSucceedsIff | src/binsrv/storage.cpp:309-348 | A purge succeeds iff the target is a file of the storage, not the last one, and has the base name of the first; it then removes exactly the files up to the target. |
| Purge.StreamingRefuses | src/binsrv/storage.cpp:309-312 | A storage opened for streaming refuses to purge. |
| Purge.PurgeIsAtomic | src/binsrv/storage.cpp:309-402 | With any crash point, any refused removals and any undone ones, a restart refuses or finds the whole storage of before the purge or the whole storage behind the target. |
| Purge.PurgedReopensIff | src/binsrv/storage.cpp:309-402 | A finished purge reopens, as the shorter storage, iff the system refuses to remove no object of the files up to the target; the warning is given iff it refuses one. |
| Purge.PurgeIsDurable | src/binsrv/storage.cpp:309-402 | After a finished purge without refused removals a crash cannot bring a purged file back: what it leaves is refused or is the shorter storage. |
| StorageClass.StorageBackend.PutObject | src/binsrv/basic_storage_backend.cpp:40-43 | The object is replaced durably and nothing else changes. |
| StorageClass.StorageBackend.CreateStream | src/binsrv/basic_storage_backend.cpp:72-83 | A stream is created empty iff none is open. |
| StorageClass.StorageBackend.AppendStream | src/binsrv/basic_storage_backend.cpp:72-83 | A stream is reopened at its length iff none is open and the object exists. |
| StorageClass.StorageBackend.WriteDataToStream | src/binsrv/basic_storage_backend.cpp:85-91 | The bytes are appended to the open stream, not durably. |
| StorageClass.StorageBackend.RemoveObjects | src/binsrv/basic_storage_backend.cpp:50-70 | Every object that can be removed is removed and made durable; an error is reported iff some removal failed. |
| StorageClass.BinlogStorage.LoadBinlogIndex | src/binsrv/storage.cpp:506-544 | The loop over the lines accepts and refuses as the index function says. |
| StorageClass.BinlogStorage.LoadMetadataSet | src/binsrv/storage.cpp:670-719 | The loop over the names yields all records, or nothing when one does not fit its payload. |
| StorageClass.BinlogStorage.Initialize | src/binsrv/storage.cpp:71-131 | The constructor accepts exactly the directories the recovery function accepts and ends with its records. |
| StorageClass.BinlogStorage.OpenBinlog | src/binsrv/storage.cpp:167-219 | The new state, the status and the refusals are those of the specification; a refusal changes nothing. |
| StorageClass.BinlogStorage.ReopenLast | src/binsrv/storage.cpp:194-218 | The last file is opened for append at its length, with its last sequence number, or the call is refused. |
| StorageClass.BinlogStorage.CreateNext | src/binsrv/storage.cpp:194-218 | A new file gets its magic bytes, its metadata and its line in the index, in that order. |
| StorageClass.BinlogStorage.OpenNewBinlogFile | src/binsrv/storage.cpp:432-452 | The record of a new file has the GTIDs so far as previous set and an empty added set. |
| StorageClass.BinlogStorage.OpenExistingBinlogFile | src/binsrv/storage.cpp:453-465 | An existing file at or behind the magic bytes stays as it is; a shorter one gets them. |
| StorageClass.BinlogStorage.WriteEvent | src/binsrv/storage.cpp:221-277 | The object goes to the state that StorageModel.WriteKeeps describes, checkpoint decision included. |
| StorageClass.BinlogStorage.FlushEventBufferInternal | src/binsrv/storage.cpp:467-504 | The complete part of the buffer goes to the stream and into the record, and the metadata is saved. |
| StorageClass.BinlogStorage.FlushEventBuffer | src/binsrv/storage.cpp:301-307 | Flushes iff something is complete. |
| StorageClass.BinlogStorage.DiscardIncompleteTransactionEvents | src/binsrv/storage.cpp:292-299 | The buffer ends at the boundary and everything incomplete is reset. |
| StorageClass.BinlogStorage.CloseBinlog | src/binsrv/storage.cpp:279-290 | Flushes, empties the buffer and closes the stream. |
| StorageClass.BinlogStorage.PurgeBinlogs | src/binsrv/storage.cpp:309-402 | The object succeeds, with the removed records, the warning and the new state, where Purge.PurgeSucceedsIff and Purge.PurgedReopensIff say so; a refusal changes nothing. |
| StorageClass.BinlogStorage.GetGtids | src/binsrv/storage.hpp:113-132 | Previous and added GTIDs of the last record, or the purged ones of an empty storage. |
| StorageClass.BinlogStorage.SaveBinlogIndex | src/binsrv/storage.cpp:571-581 | The index lists the record names in order. |
| StorageClass.BinlogStorage.SaveBinlogMetadata | src/binsrv/storage.cpp:655-668 | The metadata object of the record is replaced. |
| StorageClass.BinlogStorage.UpdateLastCheckpointInfo | src/binsrv/storage.cpp:423-430 | Only the checkpoint fields in use are set. |
| ReaderContext.Reader.ProcessEventView | src/binsrv/events/reader_context.cpp:477-513 | The loop over states terminates and consumes or refuses an event as the automaton does, which Streaming.ReaderFollows and Refusals.ReaderAcceptsIff describe. |
| ReaderContext.Reader.constructor | src/binsrv/events/reader_context.cpp:39-53 | A new reader waits for an artificial ROTATE; position zero stands for the start of a file. |
| Streaming.ReaderFollows | src/binsrv/events/reader_context.cpp:721-1020 | The automaton accepts every event the file grammar allows, finds the same transaction boundaries and hands the storage the right GTID and sequence number. |
| Refusals.ReaderAcceptsIff | src/binsrv/events/reader_context.cpp:607-1020 | In a file of less than 4 GB the automaton accepts an event iff the file grammar allows it and its next position is exact; the one exception is a GTID event that declares a transaction shorter than itself. |
| Refusals.FileAcceptedIff | src/binsrv/events/reader_context.cpp:477-1020 | Of all lists of events for a file exactly those get through that continue it by the grammar with exact positions, stop at its terminator, and have an overdrawn GTID event at most at the very end. |
| Refusals.OverdrawnIsStuck | src/binsrv/events/reader_context.cpp:797-857 | Behind an overdrawn GTID event everything is refused and no boundary is reached. |
| Refusals.OverdrawnIsAccepted | src/binsrv/events/reader_context.cpp:749-795 | Such a GTID event does get through. |
| Refusals.RotateAcceptedIff | src/binsrv/events/reader_context.cpp:515-857 | Inside a connection an artificial ROTATE is accepted iff it cuts no transaction and no preamble short and points to the start of a file. |
| Refusals.FirstAcceptedIff | src/binsrv/events/reader_context.cpp:515-605 | A connection must begin with an artificial ROTATE to the start of a file, or in position mode to the position asked for. |
| Refusals.DescriptionAgainIff | src/binsrv/events/reader_context.cpp:607-718 | The description of a continued file is information only, and in position mode must have no next position. |
| Refusals.ArtificialRefused | src/binsrv/events/reader_context.cpp:607-1020 | Artificial events other than ROTATE are refused, but for GTID events, whose flag makes no difference. |
| Refusals.PositionAdvances | src/binsrv/events/reader_context.cpp:907-928 | Whatever is written has a next position that is not zero and is, in 32 bits, the position before plus the size. |
| Refusals.RotateToOpenIff | src/app.cpp:399-450 | An artificial ROTATE to the open file changes nothing, and is refused in position mode unless it names the current position. |
| Streaming.StepInFile | src/app.cpp:493-556 | Each event of a well-formed file is written behind the ones before; the terminator closes the file. |
| Streaming.EnterNew | src/app.cpp:399-483 | An artificial ROTATE to an unknown file closes the old one and opens an empty one. |
| Alignment.ReturnToLast | src/app.cpp:405-448 | An artificial ROTATE back to the stored file reuses it, with the preamble marked informational iff the file has events. |
| Alignment.FeedRemaining | src/app.cpp:888-918 | However much of the remaining stream arrives, it is accepted, and the stored files stay aligned prefixes of source files. |
| Connections.PreambleResumes | src/binsrv/events/reader_context.cpp:514-747 | The preamble of a resumed connection writes nothing and leaves the reader behind the stored events. |
| Connections.PositionResumes | src/app.cpp:845-853 | The stored file name and size name exactly the first event that is not stored. |
| Connections.ConnectionAccepted | src/app.cpp:820-947 | A connection that resumes there is accepted however far it gets, files only grow, and all of it means nothing is missing. |
| GtidResume.TakenGtids | src/binsrv/storage.hpp:113-132 | When everything before a source file is stored, the stored GTIDs are that file's previous GTIDs. |
| GtidResume.GtidResumes | src/app.cpp:821-844 | For the stored GTID set the server continues exactly where the store ends: no transaction again, none left out. |
| Sessions.NeverRefused | src/app.cpp:793-947 | In both modes the server can answer and every prefix of the answer is accepted. |
| Sessions.StoredIsAPrefix | src/app.cpp:793-947 | Aligned files hold the first transactions of the source, in order and once. |
| Sessions.StoredBytes | src/app.cpp:493-556 | Each stored file is byte for byte a prefix of the source file of that name. |
| Sessions.TurnKeeps | src/app.cpp:864-947 | A connection that ends in a timeout or in a crash leaves the store aligned with the source. |
| Sessions.ExactlyOnce | src/app.cpp:793-947 | After any history of connections, timeouts and crashes against a growing source the stored transactions are a prefix of the source's and the files byte prefixes. |
| Sessions.CatchesUp | src/app.cpp:793-947 | After any history, a connection that delivers everything leaves nothing missing. |
| Application.AppEventIff | src/app.cpp:485-556 | On the real storage an event is accepted iff the log accepts it and no dropped event had a timestamp; the result is then the log's. |
| Application.LeaksIff | src/app.cpp:425-445 | Moving on from a source file drops timestamps iff that file has nothing behind its preamble and a non-zero timestamp there. |
| Application.AppConnectionIff | src/app.cpp:864-920 | Whatever has been purged, a connection is refused iff it leads away from such a file, and otherwise does what the log says. |
| PurgedPast.EventUnpurged | src/app.cpp:485-556 | An event accepted by a log is accepted, with the same effect, by that log without its purged files. |
| PurgedPast.FeedUnpurged | src/app.cpp:864-920 | So is any list of events. |
| EndToEnd.StorageSession | src/app.cpp:793-947 | Whatever has been purged, a whole connection on the storage is answered and accepted, and ends with a disk that holds exactly the complete transactions that arrived, in files aligned with the source, complete once everything has arrived. |
| EndToEnd.ExitFlushes | src/binsrv/storage.cpp:133-141 | A connection that ends by EOF or by a signal leaves exactly the complete transactions that arrived on disk, in files aligned with the source. |
| EndToEnd.CrashInEvent | src/app.cpp:485-556 | A crash inside any call an event causes leaves the files of before or of after the event without transactions of the last one that were not flushed. |
| EndToEnd.CrashAtEnd | src/app.cpp:934-943 | A crash inside the discard and flush after a timeout or inside the flush at exit loses nothing but transactions of the last file that were not flushed. |
| EndToEnd.CrashInConnection | src/app.cpp:793-947 | A crash at any step anywhere in a connection, its last calls included, leaves a directory that is refused or is the disk of files still aligned with the source, with all that arrived but unflushed transactions of the last file. |
| EndToEnd.RestartIsStored | src/binsrv/storage.cpp:53-153 | A restart on the disk of aligned files is ready for the next connection. |
| Restarts.PurgeLeaves | src/app.cpp:1063-1098 | A purge between two runs of the program leaves exactly the files behind the target if the target may be purged and everything otherwise, and the program starts again on them. |
| Restarts.PurgeCrashLeaves | src/app.cpp:1063-1098 | A crash inside a purge whose directory is accepted again leaves everything or exactly the files behind the target. |
| EndToEnd.FirstIsStored | src/binsrv/storage.cpp:53-153 | An empty directory is ready for the first connection. |
| EndToEnd.StoredWhileGrowing | src/app.cpp:793-862 | What is stored stays aligned while the source grows. |
| EndToEnd.BareSourceFails | src/app.cpp:425-465 | Two source files without transactions and terminators stop the application, with any clock. |
| StorageHistory.TurnOnStorage | src/app.cpp:793-947 | A timeout, exit, crash anywhere, purge or crash in a purge succeeds and leaves the storage ready for the next connection. |
| StorageHistory.ExactlyOnceOnDisk | src/app.cpp:793-947 | From an empty directory, in both modes, after any history of connections, timeouts, exits, crashes with accepted restarts, and purges, against a growing source, no event or restart was refused and the disk is exactly that of files which continue what was purged to a prefix of the source's transactions, byte for byte. |
| StorageHistory.CatchesUpOnDisk | src/app.cpp:793-947 | After any such history a connection that delivers everything leaves nothing missing. |
| EventLoop.BinlogServer.OpenBinlog | src/binsrv/storage.cpp:167-219 | Opening with asserts succeeds exactly as specified. |
| EventLoop.BinlogServer.ProcessArtificialRotateEvent | src/app.cpp:399-483 | Reuses, closes and opens, or refuses, exactly as the event function says. |
| EventLoop.BinlogServer.StoreEvent | src/app.cpp:536-555 | Writes unless informational and closes after a terminator, exactly as the event function says. |
| EventLoop.BinlogServer.ProcessBinlogEvent | src/app.cpp:493-556 | Reader and storage objects end as the event function says, and the storage stays tidy. |
| EventLoop.BinlogServer.ReceiveBinlogEvents | src/app.cpp:868-947 | The loop ends as the function over all events says, and a timeout discards and flushes. |
| RewriteMode.FinishFile | src/app.cpp:713-745 | When the size limit is reached at a boundary, the current file gets a ROTATE to the start of the next file, whose own next position is the offset behind it, and is finished. |
| RewriteMode.PrefaceNew | src/app.cpp:746-781 | A new file is created under the next name with a FORMAT_DESCRIPTION and a PREVIOUS_GTIDS whose next positions are exact. |
| RewriteMode.PrefaceSkipped | src/app.cpp:746-781 | After a reconnect a file with transactions is continued and the generated preface is not written again. |
| RewriteMode.NewFileOpens | src/app.cpp:713-781 | Wherever a new file is needed the generated events are accepted and the stored transactions stay the same. |
| RewriteMode.WriteRewritten | src/app.cpp:783-791 | A relocated event is accepted behind what is there and its transaction still has as much to come as in the source. |
| RewriteMode.RewriteStep | src/app.cpp:645-791 | One event of a source transaction is accepted and stored, never splitting a transaction, the transaction order grows iff it completes one, and the files are then made of exactly the events handed over. |
| RewriteMode.PauseAfter | src/app.cpp:930-943 | A timeout leaves whole transactions and well-shaped files, with no new place of a reconnect. |
| RewriteJournal.HandledIs | src/app.cpp:645-791 | Noting, call by call, every event handed over to be written gives in every part of the handling of an event: a ROTATE more in the finished file, a new file with its two preface events or a file without events that gets them, no generated event where a file is continued, and at the end the relocated event. |
| RewriteCrashes.PartMoments | src/app.cpp:645-791 | At every generated event and at the event itself the files can be cut back to a pause, and hold the transactions of before the event until it is stored. |
| RewriteCrashes.PauseTrimmed | src/app.cpp:645-791 | What a crash leaves of such files is well shaped and ends with a transaction or a terminator. |
| RewriteSessions.RewriteConnection | src/app.cpp:645-791 | Cut off anywhere, the rewriting store has the same transactions in the same order as a plain store fed the same events, and at most one new place of a reconnect, at the end of what was its last file. |
| RewriteSessions.ChecksumsRequired | src/app.cpp:655-697 | A connection in rewrite mode gets through only if every source file in it has checksums. |
| RewriteSessions.RewriteCrash | src/app.cpp:645-791 | A crash in any part of the handling of any event leaves well-shaped files with first transactions of the plain store. |
| RewriteSessions.RewriteExactlyOnce | src/app.cpp:645-947 | After any number of connections in rewrite mode, ended by timeouts or by crashes anywhere, the stored transactions are the first of the source, in order and once, and every file, with the events that were handed over to be written to it, is well made. |
| RewriteSessions.RewriteCatchesUp | src/app.cpp:645-947 | A connection in rewrite mode that delivers everything leaves nothing missing. |
| RewriteSessions.RewrittenFile | src/app.cpp:713-791 | In a well-made file the events handed over to be written are the stored ones, the next position of each is the offset behind it, every terminator is a ROTATE to the start of the next file and stands at or beyond the size limit; files are named one after the other, sequence numbers count from one, PREVIOUS_GTIDS equals the record's previous set; a transaction that is neither the first of its file nor the first of an actual connection begins below the size limit, and a terminator is the last event of its file unless an actual connection started right behind it. |
| RewriteStorage.RewriteLinked | src/app.cpp:645-791 | What rewrite mode does on the log it does on the storage: the same events are accepted, and name, position, sequence number and GTIDs asked of the storage are those of the log. |
| RewriteStorage.PartLinked | src/app.cpp:645-791 | In every part of the handling of an event the storage is handed the same event as the log, and the storage is then that of the log. |
| RewriteStorage.PartCrash | src/app.cpp:645-791 | A crash inside any call of any generated or rewritten event leaves a directory that is refused or is the disk of what the log says may be left. |
| RewriteHistory.TurnLinked | src/app.cpp:645-947 | A timeout, exit, crash anywhere, purge or crash in a purge succeeds on the storage and is a turn of the log; only a purge takes files away, those up to its target. |
| RewriteHistory.AppChecksumsRequired | src/app.cpp:655-697 | The same on the storage. |
| RewriteHistory.RewriteOnDisk | src/app.cpp:645-947 | From an empty directory, after any history in rewrite mode with crashes whose restarts are accepted and with purges, no event was refused, the disk is exactly that of its files, and with what was purged they hold first transactions of the source, in order and once; every file, with the events the history handed over to be written to it, is well made. |
| RewriteHistory.RewriteCatchesUpOnDisk | src/app.cpp:645-947 | After any such history a connection that delivers everything leaves nothing missing. |
| RewriteRotate.FirstTransaction | src/app.cpp:713-791 | The first transaction of a connection lands directly behind a terminator iff the last stored file is finished, and then continues that file; the events handed over are those of the handling of the event. |
| RewriteRotate.FirstTransactionOnStorage | src/app.cpp:713-791 | The same on the storage, whatever has been purged. |
| RewriteRotate.CrashBetweenFiles | src/app.cpp:720-757 | Whenever a connection is about to change files, a crash between the close and the next open leaves a directory that is the disk of a log, opens again and has a finished last file. |
| RewriteRotate.ContinuesAfterRotate | src/app.cpp:722-757 | After a restart from that crash the first transaction of the next connection is written directly behind the ROTATE. |
| RewriteRotate.RotateIsNotAlwaysLast | src/app.cpp:713-791 | A run from an empty directory in which this happens. |
| Rewriter.FixSequenceNumberAndLastCommitted | src/binsrv/events/rewriter.cpp:149-175 | Computes the pair that FixedNumbers describes, or raises. |
| Rewriter.FixedNumbers | src/binsrv/events/rewriter.cpp:149-175 | Raises iff the dependency is not earlier; otherwise the new dependency is earlier iff the last number is not the maximum, is as far back as before where there is room, is one where there is not, and is zero only for number one. |
| Rewriter.FieldWidthFits | src/binsrv/events/gtid_tagged_log_body_impl.cpp:506-539 | The size field has a least width consistent with the size it contains. |
| Rewriter.CalculateEncodedSize | src/binsrv/events/gtid_tagged_log_body_impl.cpp:506-539 | The loop finds that width, in at most two steps. |
| Rewriter.BodyLength | src/binsrv/events/gtid_tagged_log_body_impl.cpp:428-645 | The encoded body is as long as the size it announces. |
| TaggedCodec.BodyTrip | src/binsrv/events/gtid_tagged_log_body_impl.cpp:541-645 | Reading any encoded body by the field ids of the protocol gives back every field and accepts the announced size. |
| TaggedCodec.DecodeBody | src/binsrv/events/gtid_tagged_log_body_impl.cpp:125-246 | The loop over the fields refuses ids out of order, unknown or missing fields and left-over bytes as specified. |
| TaggedCodec.BodyIff | src/binsrv/events/gtid_tagged_log_body_impl.cpp:125-246 | A body is accepted iff it has version 1, announces its own size and a zero, and its fields follow each other to the end with ascending ids, no required one missing. |
| TaggedCodec.KnownFields | src/binsrv/events/gtid_tagged_log_body_impl.cpp:354-426 | Only the twelve fields of the protocol are ever read. |
| TaggedCodec.ReadInRange | src/binsrv/events/gtid_tagged_log_body_impl.cpp:353-426 | Whatever is accepted fits the members of the body. |
| TaggedCodec.RewriteBody | src/binsrv/events/rewriter.cpp:228-328 | A rewritten body reads as the original one but for the two fixed numbers and the transaction length, which leaves as much behind the event as before; it raises iff the body is refused, the dependency is not earlier or the length is too small. |
| Rewriter.Stabilizes | src/binsrv/events/rewriter.cpp:265-299 | From any candidate three recalculations reach a size that recalculates to itself. |
| Rewriter.RewrittenEventSize | src/binsrv/events/rewriter.cpp:228-299 | The loop ends with an event size that agrees with the transaction length written in the event, or raises iff the length is too small. |
| AtomicPut.PutIsAtomic | src/binsrv/filesystem_storage_backend.cpp:168-220 | After a crash at any step the object shows its old or its new bytes in full and all other objects are as before. |
| AtomicPut.PutIsDurable | src/binsrv/filesystem_storage_backend.cpp:168-220 | After the call only the new bytes can be found. |
| AtomicPut.PutKeepsNoLinks | src/binsrv/filesystem_storage_backend.cpp:168-220 | A put never gives a file two names, so puts can follow each other. |
| AtomicPut.TemporariesAreNotListed | src/binsrv/filesystem_storage_backend.cpp:109-128 | The temporary of any object has the extension that listing leaves out. |
| AtomicPut.ListObjects | src/binsrv/filesystem_storage_backend.cpp:109-128 | The listing has exactly the entries that are not temporaries. |
| Search.SearchByGtidSet | src/app.cpp:1112-1166 | The loop takes the records the greedy function takes and fails on an empty storage, in position mode, or with something left over. |
| Search.SearchCovers | src/app.cpp:1140-1156 | The search succeeds iff the request is within all added sets, and the files it names cover it. |
| Search.SearchIsMinimal | src/app.cpp:1140-1156 | With disjoint files the result is part of every cover. |
| Search.GreedyIsNotAlwaysMinimal | src/app.cpp:1140-1156 | With overlapping files a smaller cover can exist. |
| Search.StoredFilesAreDisjoint | src/app.cpp:1140-1156 | Files stored from a source that never repeats a GTID are disjoint. |
| Search.SearchByTimestamp | src/app.cpp:1036-1052 | Returns the longest run of first files that begin no later than the timestamp, or fails when there is none. |
| VarlenInt.VarlenSizeIsLeast | src/util/byte_span_inserters.hpp:219-228 | The formula gives the least byte count from one to nine that holds the value. |
| VarlenInt.FirstByteReads | src/util/byte_span_inserters.hpp:248-258 | The low ones of the first byte give the size back and its high bits the low bits of the value. |
| VarlenInt.VarlenRoundTrip | src/util/byte_span_extractors.hpp:189-225 | Every value is read back, with what follows it, by every type that holds it. |
| VarlenInt.DecodeWithin | src/util/byte_span_extractors.hpp:189-225 | Whatever is read fits the type it is read into. |
| WireFormat.VarlenBytes | src/util/byte_span_inserters.hpp:239-270 | The first byte ends with as many ones as bytes follow, and the value is its other bits plus the weighted rest. |
| VarlenInt.ZigZagIs | src/util/byte_span_inserters.hpp:200-215 | Non-negative values become even numbers, negative ones odd numbers. |
| VarlenInt.SignedRoundTrip | src/util/byte_span_extractors.hpp:227-248 | Every signed value of every width comes back, the minimum included. |
| VarlenInt.PackedRoundTrip | src/util/byte_span_extractors.hpp:145-187 | Every packed value comes back and takes the computed size. |
| VarlenInt.PackedMarkers | src/util/byte_span_inserters.hpp:157-196 | The writer never uses the two special markers. |
| WireFormat.PackedRead | src/util/byte_span_extractors.hpp:146-187 | From any input: what a packed integer is read as, and when it is refused. |
| ByteSpans.InputSpan.ExtractFixed | src/util/byte_span_extractors.hpp:34-69 | Reads little-endian bytes, or stays where it is. |
| ByteSpans.InputSpan.ExtractPacked | src/util/byte_span_extractors.hpp:145-187 | Reads a packed integer; a failed read does not move. |
| ByteSpans.InputSpan.ExtractVarlen | src/util/byte_span_extractors.hpp:189-225 | Reads a variable-length integer; a failed read does not move. |
| ByteSpans.InputSpan.ExtractSigned | src/util/byte_span_extractors.hpp:227-248 | Reads a signed one; a failed read does not move. |
| ByteSpans.OutputSpan.InsertFixed | src/util/byte_span_inserters.hpp:33-56 | Writes little-endian bytes in place and nothing else. |
| ByteSpans.OutputSpan.InsertVarlen | src/util/byte_span_inserters.hpp:237-268 | Writes the encoding in place iff there is room. |
| ByteSpans.OutputSpan.InsertPacked | src/util/byte_span_inserters.hpp:157-196 | Writes the encoding in place iff there is room. |
| Wire.SizeIsExact | extra/mysql_protocol/mysqlrouter/classic_protocol_codec_base.h:329-390 | The size accumulator counts exactly the bytes the buffer accumulator writes. |
| Wire.EncodeTo | extra/mysql_protocol/mysqlrouter/classic_protocol_codec_base.h:262-314 | Encoding into a buffer fails iff the buffer is smaller than that size and otherwise fills just that much. |
| Wire.VarTripIff | extra/mysql_protocol/mysqlrouter/classic_protocol_codec_wire.h:136-204 | A wire integer comes back iff it is not negative. |
| Wire.VarStrTrip | extra/mysql_protocol/mysqlrouter/classic_protocol_codec_wire.h:339-383 | A string with its length comes back, with what follows it. |
| Wire.NulStrTrip | extra/mysql_protocol/mysqlrouter/classic_protocol_codec_wire.h:389-440 | A zero-terminated string without zeros comes back. |
| Wire.DecodeAccumulator.StepFixed | extra/mysql_protocol/mysqlrouter/classic_protocol_codec_base.h:150-250 | A step reads or fails; the first failure sticks and does not move. |
| Wire.DecodeAccumulator.StepVar | extra/mysql_protocol/mysqlrouter/classic_protocol_codec_wire.h:171-200 | The same for integers of variable length. |
| Wire.DecodeAccumulator.StepStr | extra/mysql_protocol/mysqlrouter/classic_protocol_codec_base.h:222-243 | The same for strings of given length, the largest length standing for all that remains. |
| Wire.DecodeAccumulator.StepVarStr | extra/mysql_protocol/mysqlrouter/classic_protocol_codec_wire.h:363-381 | The same for strings with their length. |
| RowsAndFrames.RowTrip | extra/mysql_protocol/mysqlrouter/classic_protocol_codec_message.h:1146-1203 | Any list of optional strings comes back. |
| WireFormat.RowIs | extra/mysql_protocol/mysqlrouter/classic_protocol_codec_message.h:1146-1203 | A row is, byte by byte, 0xfb for every NULL and the length-encoded length and the bytes for every other field. |
| WireFormat.LengthEncodedBytes | extra/mysql_protocol/mysqlrouter/classic_protocol_codec_wire.h:136-200 | Both length-encoded integers of the repository write the one, three, four or nine bytes of the protocol. |
| WireFormat.VarRead | extra/mysql_protocol/mysqlrouter/classic_protocol_codec_wire.h:170-203 | From any input: what a length-encoded integer of the protocol is read as, and when it is refused. |
| WireFormat.LargestLength | extra/mysql_protocol/mysqlrouter/classic_protocol_codec_wire.h:339-385 | A string whose length is written as the largest value takes all that remains. |
| RowsAndFrames.DecodeRowFields | extra/mysql_protocol/mysqlrouter/classic_protocol_codec_message.h:1178-1203 | The loop over the buffer yields the decoded row or fails as specified. |
| RowsAndFrames.HeaderLength | extra/mysql_protocol/mysqlrouter/classic_protocol_codec_frame.h:138-149 | The length in the header is the number of bytes that follow iff the payload is below 2^24 bytes. |
| RowsAndFrames.FrameTrip | extra/mysql_protocol/mysqlrouter/classic_protocol_codec_frame.h:135-186 | A frame is read back with its number, its payload and what follows. |
| WireFormat.FrameBytes | extra/mysql_protocol/mysqlrouter/classic_protocol_codec_frame.h:135-186 | A frame is three bytes of size, lowest first, one of the sequence number, and the payload. |
| RowsAndFrames.SentIff | src/minimysql/network_io_operations.cpp:141-150 | A frame is sent iff its payload has at most 16777211 bytes. |
| RowsAndFrames.RowIsNotEof | src/minimysql/network_io_operations.cpp:144-147 | No row that may be sent begins with the byte of an end-of-result packet. |
| RowsAndFrames.FirstOfRow | extra/mysql_protocol/mysqlrouter/classic_protocol_codec_wire.h:138-158 | A row begins with that byte iff its first field is longer than any frame. |
| RowsAndFrames.RowFrameTrip | extra/mysql_protocol/mysqlrouter/classic_protocol_codec_frame.h:135-186 | A row survives its frame. |
| QueryCodec.BitmapBit | extra/mysql_protocol/mysqlrouter/classic_protocol_codec_message.h:1729-1752 | Bit i of the bitmap is set iff parameter i is NULL. |
| QueryCodec.PackNullBits | extra/mysql_protocol/mysqlrouter/classic_protocol_codec_message.h:1735-1750 | The loop that sets bits and emits full bytes builds that bitmap. |
| QueryCodec.ReadTypes | extra/mysql_protocol/mysqlrouter/classic_protocol_codec_message.h:1944-1958 | The loop reads the type table as specified. |
| QueryCodec.ReadValues | extra/mysql_protocol/mysqlrouter/classic_protocol_codec_message.h:1960-1988 | The loop with its bit and byte counters reads the values as specified. |
| QueryCodec.QueryTrip | extra/mysql_protocol/mysqlrouter/classic_protocol_codec_message.h:1712-2004 | Every query with known types and correctly sized values comes back, any of them NULL; without the shared capability the parameters are blank. |
| QueryCodec.ValueBytes | extra/mysql_protocol/mysqlrouter/classic_protocol_codec_message.h:1755-1811 | For every field type of the protocol: a number is its bytes, a time has a length byte, everything else a length-encoded length. |
| QueryCodec.NumberRead | extra/mysql_protocol/mysqlrouter/classic_protocol_codec_message.h:1821-1875 | From whatever input, a number is read as the bytes its type has, or refused if there are fewer. |
| QueryCodec.TemporalRead | extra/mysql_protocol/mysqlrouter/classic_protocol_codec_message.h:1821-1875 | From whatever input, a time is read as long as its length byte says, or refused. |
| QueryCodec.UnknownRefused | extra/mysql_protocol/mysqlrouter/classic_protocol_codec_message.h:1821-1878 | A value of any other type is refused. |
| WireFormat.QueryIs | extra/mysql_protocol/mysqlrouter/classic_protocol_codec_message.h:1716-1817 | A query with parameters is, byte by byte, the command 3, the counts, bitmap, flag, type table, values and statement. |
| WireFormat.QueryAccepted | extra/mysql_protocol/mysqlrouter/classic_protocol_codec_message.h:1896-2004 | Whatever is accepted as a query has the command byte, one set of parameters and the flag for new ones. |
| GreetingCodec.GreetingTrip | extra/mysql_protocol/mysqlrouter/classic_protocol_codec_message.h:3024-3281 | For every pair of capability sets the greeting comes back with exactly the fields that are not carried blanked. |
| WireFormat.GreetingIs | extra/mysql_protocol/mysqlrouter/classic_protocol_codec_message.h:3024-3130 | In all its forms the greeting is, byte by byte, the handshake response of the protocol with its capability flags. |
| WireFormat.GreetingAccepted | extra/mysql_protocol/mysqlrouter/classic_protocol_codec_message.h:3131-3281 | A greeting of the 4.1 form without the end of a user name is accepted only if both sides have SSL. |
| GreetingCodec.OldTrip | extra/mysql_protocol/mysqlrouter/classic_protocol_codec_message.h:3078-3091 | The form before protocol 4.1 keeps the low halves of capabilities and packet size, and the schema iff it is shared. |
| GreetingCodec.LoginTrip | extra/mysql_protocol/mysqlrouter/classic_protocol_codec_message.h:3045-3076 | User name, the three forms of authentication data, schema, method name and attributes come back. |

## Left out

- Construction in querying_only mode: it may skip every record and then reads the front of an empty list.
- I/O failures other than failed removals: an exception inside a put or a stream write is a crash at that step.
- JSON text of metadata: objects are kept parsed, and an object of the wrong kind is refused.
- The S3 backend: it is another instance of the abstract backend.
- Checksums and event parsing: an event is its fields and its bytes.
- HEARTBEAT events and servers that have purged what is asked for: the server then refuses the connection.
- Purging of source files while the store is behind: the source only grows.
- RewriteMode.RewriteStep: assumes that next positions stay below 2^32 and that no file number exceeds 999999, as AllFits says.
- RewriteHistory.RewriteOnDisk: assumes the same limits, and that the directory a crash leaves is accepted at the restart.
- StorageHistory.ExactlyOnceOnDisk: assumes that the source moves on from no file that Application.AppConnectionIff refuses to leave, and that the directory a crash leaves is accepted at the restart.
- Purges while another instance of the program is connected: in the model a purge runs only between two runs of the program.
- Rewriter.RewrittenEventSize: assumes that the transaction length stays below 2^64.
- TaggedCodec.RewriteBody: assumes the same.
- Refusals.FileAcceptedIff: is about events that are not marked artificial, in a file of less than 4 GB; positions beyond that wrap around as Refusals.PositionAdvances says.
- Checkpoints.FlushedInTime: assumes a clock that does not go back, as a steady clock does not.
- The StmtRow codec and the remaining messages of the protocol: they would only repeat the lemmas about items.
- Sockets, timers, authentication, configuration, logging and command line handling.
