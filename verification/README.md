# A verified model of a Windows log tailer

The program tails Windows logs: readers turn log files, event channels and captured DNS packets
into batches of records, a manager hands every batch to the consumers of its topic, consumers
ship them, and a checkpoint remembers how far each log has been read. This project models the
parts of it in which order, loss, duplication and crashes matter, and proves what they keep.

- **`EtlScanner`, `EtlPipeline`, `EtlList`, `EtlOrder`, `EtlStartup`, `EtlProgress`, `EtlStream`,
  `EtlHistory`**: the snapshot pipeline of `reader/etl_reader.go`. The scanner and the sorted list
  are objects; converters, loaders and queues are a labelled step relation (`EtlPipeline.State`,
  `Enabled`, `Next`), so that a statement about `Exec` or `Reachable` is one about every
  interleaving, with conversion, read and parse failures and partly parsed files. A loader that
  has taken its file off the list but not yet sent its events is a state of its own, as is a
  dispatcher blocked in `Submit`. List elements have an identity of their own and a name, which
  two of them can share.
- **`Utf8`, `XmlSafeReader`, `XmlEscape`, `XmlPromise`**: the streaming escaper of
  `eventlog/normal_log.go`, an object over a 256-byte array, refined to a recursive escape of the
  text, over a complete UTF-8 decoder (RFC 3629, sections 3 and 4, with width 1 for invalid
  input), and that escape against the one its comment promises.
- **`CheckpointStore`, `CheckpointMachine`, `CheckpointCutoffs`, `CheckpointRuns`**: the
  checkpoint object, the same worker as a state machine in which the process can die between any
  two steps of a flush, a proof that the object's start-up and turns are runs of that machine, and
  the durable cutoff of every log over all runs.
- **`ChannelReader`, `FanOut`, `SyslogConsumer`, `Delivery`, `EtlDelivery`, `Recovery`,
  `CrashLoss`**: channel reader, manager and syslog consumer, their composition, that of the ETL
  reader with the syslog consumer, and what survives a crash.
- **`DnsPacketReader`, `BpfFilter`**: batching of packets, and the meaning of the generated
  capture filter.

`Sequences` and `Records` hold what these share. Timestamps are UnixNano values as unbounded
integers. The MD5 of a record is a free constructor, that is, an injective function.

## What turned out not to hold

- With `transferThreads` of two or more the snapshot pipeline can deadlock: files that come out
  of conversion early fill all loader slots and wait for a file that then finds no slot
  (`EtlProgress.DeadlockIffMoreThanOneThread`). It cannot while at most `transferThreads` files
  have overtaken the front of the list.
- Between the chunks of one file the persisted cutoff can move back. It does not, whatever the
  chunk size, exactly when the records that pass the filter stand in time order in the file
  (`EtlScanner.FileCutoffsOrderedIffPassingAre`). From one file to the next it never does.
- A crash after a conversion and before the source is removed leaves two files that lead to list
  elements of one name. As the turn is told by name, the second can then be released ahead of the
  first (`EtlOrder.SameNameReleasedEarly`). From the start-up files this can happen exactly when
  two of them lead to one name (`EtlStartup.EarlyReleaseIffSameName`).
- Behind the ETL reader two records of one time can leave the syslog consumer in an endless loop
  (`EtlDelivery.TieCanHang`), since the scanner lets the second through on its digest. The
  consumer returns exactly when the ends of its chunks strictly rise
  (`EtlDelivery.EveryRunReturnsIffEndsRise`); over a log with strictly increasing timestamps,
  exactly when its first cutoff is below the end of the first chunk.
- `Read` of the escaper is right exactly when its destination reaches the first control of the
  buffer (`XmlEscape.ReadIsRightIffItFits`); a shorter one loses a byte and escapes the control
  twice, which nothing later makes good (`XmlEscape.ReadsAreRightIffAllFit`). Its comment promises to escape every character for which `unicode.IsControl` holds.
  The code leaves out those that are spaces (tab to carriage return, and U+0085), misses a
  two-byte control that lies across the edge of two 256-byte blocks, and after any other two-byte
  control leaves its second byte in the output. The promise is kept exactly on text without a
  byte from tab to carriage return and without a two-byte control
  (`XmlPromise.PromiseKeptIffClean`).
- `HandleEvents` of the syslog consumer repeats the same chunk forever when the chunk's last
  record is not newer than the cutoff; `SyslogConsumer.ReturnsIffChunkEndsRise` says exactly on
  which batches it returns. Behind a channel reader it returns from a given stream exactly when
  its first cutoff is below the end of the first chunk (`Delivery.ReturnsIffReady`), and from
  every stream exactly when it is not above the reader's (`Delivery.SafeWiring`). On a first start
  both cutoffs are the wall clock's, the consumer's read after the reader's; after a crash the
  reader's durable cutoff can be behind the consumer's.
- A chunk for which no syslog client could be made still moves and persists the cutoff, so its
  records are not attempted again: everything is attempted exactly when every client could be
  made (`Delivery.AttemptedIffClients`).
- The channel reader persists before it sends, so a crash can lose records
  (`CrashLoss.RecordCanBeLost`): exactly those not attempted before it that are not newer than
  the reader's durable cutoff, which are none exactly when everything emitted between the cutoff
  the consumer had reached and that one was being attempted (`Recovery.AttemptedAfterRestart`).
- A channel reader whose event reader cannot be made or opened stays marked as running and
  never reads again; the same holds while no read of its run reports an end or an error, and in
  no other case (`ChannelReader.ReadsNoMoreIff`).

## Model

| member | source | states |
|---|---|---|
| Records.ReadChunk | reader/etl_reader.go:449-455 | a chunk is the slice from start to the returned end, short only at the end of the array |
| Records.ChunksPartition | reader/etl_reader.go:356-371 | chunks of 1 to size records concatenate to exactly what was left, in order |
| EtlScanner.Scanner.NewEvents | reader/etl_reader.go:331-343 | the filter keeps, in order, the records newer than the cutoff, or as new with another digest, against one cutoff for the whole file |
| EtlScanner.DeltaMembers | reader/etl_reader.go:331-343 | a record is in the filtered list if and only if it is in the file and passes the cutoff |
| EtlScanner.Scanner.Emit | reader/etl_reader.go:352-371 | sends the chunks of the new records, persists one state per chunk, ends with the last record's time and digest as cutoff; with new records and a chunk size below one it panics before it sends or persists anything |
| EtlScanner.Scanner.ScanFile | reader/etl_reader.go:322-378 | one file, for every chunk size: what is sent is exactly the new records, as chunks, and the cutoff moves to the last of them, or stays; it panics exactly when there are new records and the chunk size is below one |
| EtlScanner.CutoffNeverDecreases | reader/etl_reader.go:331-371 | on arbitrary input the cutoff's timestamp after a file is not below the one before |
| EtlScanner.ContiguousStretch | reader/etl_reader.go:322-378 | prefixes of a strictly increasing log, scanned in any order, yield one contiguous stretch from the cutoff to the end of the longest |
| EtlScanner.TiesNothingLost | reader/etl_reader.go:331-371 | with tied timestamps, every record of a scanned prefix above the initial cutoff is delivered |
| EtlScanner.TiesRedeliverOnlyAtCutoff | reader/etl_reader.go:331-343 | a record delivered again has the timestamp of the current cutoff and another digest |
| EtlScanner.CutoffsAtChunkEnds | reader/etl_reader.go:356-371 | one cutoff is persisted per chunk, that of the chunk's last record |
| EtlScanner.CutoffsOrderedIffChunkEndsAre | reader/etl_reader.go:356-371 | for a given chunk size the persisted cutoffs never move back if and only if the records at the chunk ends are in time order |
| EtlScanner.CutoffsOrderedIffNewRecordsAre | reader/etl_reader.go:356-371 | for all chunk sizes they never do if and only if the new records are in time order |
| EtlScanner.FileCutoffsOrderedIffPassingAre | reader/etl_reader.go:331-371 | the same told from the file: if and only if the records that pass the filter stand in time order |
| EtlScanner.PersistedCutoffCanDropInsideAFile | reader/etl_reader.go:356-371 | a file for which the second persisted cutoff is older than the first |
| EtlPipeline.StepInv | reader/etl_reader.go:215-320 | every step of converters, loaders, dispatchers and scanner keeps bounds, file accounting, list contents and scanner output |
| EtlHistory.HistoryIsTheRuns | reader/etl_reader.go:215-320 | over any run, from its labels alone: snapshots are listed in the order in which they were queued, files reach the loaders in the order in which their conversions ended, and what failed, left the list, was sent and was scanned is what the steps say, in their order |
| EtlHistory.HeldIsParsed | reader/etl_reader.go:253-275 | what loaders hold, what is queued for the scanner and what was scanned is exactly what the loaders parsed: nothing after a failed read, the filled part after a failed parse, all otherwise |
| EtlHistory.BatchIsParsed | reader/etl_reader.go:253-275 | every batch queued or scanned has the records some step parsed from its file |
| EtlHistory.ParsedIsScanned | reader/etl_reader.go:253-275 | and once a file has been scanned, what its loader parsed is what was scanned |
| EtlPipeline.RunInv | reader/etl_reader.go:215-320 | the invariant holds after every run |
| EtlPipeline.InitInv | reader/etl_reader.go:399-419 | the start-up files, which may bear the same names, satisfy the invariant |
| EtlList.SortList.RemoveSortFile | reader/etl_reader.go:292-296 | exactly the element leaves, the others keep their order, also one of the same name |
| EtlList.SortList.Perform | reader/etl_reader.go:215-320 | the calls of one pipeline step on the list object have the step's effect on the list, and a loader that may release is told so |
| EtlList.SortList.Replay | reader/etl_reader.go:215-320 | over any run the object holds the pipeline's list: the arrivals that are neither released nor failed, in order, once each |
| EtlOrder.SortListExact | reader/etl_reader.go:215-320 | in every reachable state the list holds exactly the in-flight files neither released nor failed, once each, in arrival order |
| EtlOrder.NoFileLostOrDuplicated | reader/etl_reader.go:215-284 | a listed file is in exactly one place of the pipeline, and reaches the scanner at most once |
| EtlOrder.ReleasedInTurn | reader/etl_reader.go:298-320 | a waiting loader never meets an empty list; it may release its file if and only if the front bears the same name, and every earlier arrival was released or failed if and only if the front is the file itself |
| EtlOrder.SameNameReleasedEarly | reader/etl_reader.go:399-419 | after a restart that finds two files leading to one name, the second can be released ahead of the first, for any number of threads |
| EtlStartup.EarlyReleaseIffSameName | reader/etl_reader.go:298-320 | from the files found at start-up and without new snapshots some run gets to release a file out of turn if and only if two of them lead to one name |
| EtlStartup.SkipFiles | reader/etl_reader.go:215-284 | from any queues of the start-up kind a run exists in which the next files fail one after the other and everything else stays |
| EtlOrder.BoundedDisorder | reader/etl_reader.go:247-284 | for every file sent, at most transferThreads others were released before it and not yet sent at that moment |
| EtlOrder.FewUnsentAtSend | reader/etl_reader.go:247-284 | at every send at most transferThreads other files are off the list and unsent, released before or after |
| EtlProgress.DeadlockShape | reader/etl_reader.go:247-320 | in a deadlock every loader slot waits and no loader holds the front of the list |
| EtlProgress.ProgressUnderFewOvertakers | reader/etl_reader.go:66-75 | with a file in flight and at most transferThreads overtakers of the front, a conversion is running or a step is enabled |
| EtlProgress.NoDeadlockWithOneThread | reader/etl_reader.go:66-75 | one converter thread: no reachable deadlock |
| EtlProgress.DeadlockIffMoreThanOneThread | reader/etl_reader.go:66-75 | a deadlock is reachable if and only if there are two or more converter threads |
| EtlProgress.Drains | reader/etl_reader.go:215-378 | without new snapshots the steps are bounded, and where they end every file has failed conversion or been scanned, given one thread or few overtakers |
| EtlStream.EveryRunEmitsOneStretch | reader/etl_reader.go:215-378 | every interleaving over prefixes of a strictly increasing log emits one contiguous stretch of it, in order, each record once |
| EtlStream.EveryRunLosesNothing | reader/etl_reader.go:215-378 | with ties, every interleaving delivers all of each scanned file that is above the initial cutoff |
| EtlHistory.ParsedIsNotLost | reader/etl_reader.go:215-378 | with ties, in every interleaving, every record above the initial cutoff that a loader got out of a file, in full or in part, is emitted once the file has been scanned |
| EtlHistory.StretchEndsWithLongestParsed | reader/etl_reader.go:215-378 | the stretch emitted from a strictly increasing log ends exactly where the longest of what was parsed of the scanned files ends |
| EtlStream.EveryRunRedeliversOnlyTies | reader/etl_reader.go:215-378 | with ties, a record delivered again in any interleaving has the timestamp of the cutoff |
| EtlStream.StepCutoffNeverDecreases | reader/etl_reader.go:322-378 | no step takes the scanner's cutoff back or its output away, on arbitrary files |
| EtlDelivery.EmittedIsOut | reader/etl_reader.go:356-371 | the batches the scanner emits concatenate to its output, and none is empty |
| EtlDelivery.ScanFiles | reader/etl_reader.go:322-378 | the scanner object over files one after the other sends just these batches |
| EtlDelivery.ReturnsIffEndsRise | consumer/consumer_syslog.go:71-87 | on any batches at all the consumer returns from each if and only if the ends of its chunks, over all batches, strictly rise above its cutoff |
| EtlDelivery.EveryRunReturnsIffEndsRise | cmd/wineventtail/schduler.go:61-69 | so behind the ETL reader, in every interleaving, on any files and for every chunk size of the scanner |
| EtlDelivery.RisingLogIsDelivered | cmd/wineventtail/schduler.go:61-69 | behind the ETL reader over prefixes of a strictly increasing log: exactly when the consumer returns from everything, and that each record newer than its cutoff is then attempted once if and only if all clients could be made |
| EtlDelivery.TieCanHang | consumer/consumer_syslog.go:73-77 | for any two records of one time some run on prefixes of one log leaves the consumer stuck, whatever its cutoff and whatever the chunk size |
| Utf8.DecodeEncoded | eventlog/normal_log.go:317 | decoding gives back every encoded scalar value with its width, whatever follows |
| Utf8.EncodeDecoded | eventlog/normal_log.go:317 | a decoded rune encodes to the bytes consumed; the error rune of width 1 appears only where no encoding starts |
| Utf8.EscapeIsLocal | eventlog/normal_log.go:317-318 | whether a rune is escaped shows in its first two bytes |
| XmlSafeReader.EscapeReadsAsCode | eventlog/normal_log.go:321 | an escape is a backslash, the letter u and four digits 0-9a-f that read in base 16 as the code |
| XmlSafeReader.Reader.Read | eventlog/normal_log.go:306-331 | bytes stored, bytes of the destination left alone, end of input, and all pending state after one call |
| XmlEscape.EscapeByByte | eventlog/normal_log.go:316-327 | the rune-wise escape is a byte-wise one with one byte of look-ahead: the decoder never steps over a control |
| XmlEscape.ReadIsRightIffItFits | eventlog/normal_log.go:306-331 | bytes handed over and bytes to come make up the escaped text if and only if the destination reaches the first control |
| XmlEscape.ReadsAreRightIffAllFit | eventlog/normal_log.go:306-331 | any reads from a fresh reader hand over the escaped blocks and leave the rest to come if and only if every destination reaches the first control |
| XmlEscape.MisfitsLengthen | eventlog/normal_log.go:318-325 | each read that stops short of the control makes the whole output five bytes too long |
| XmlEscape.ShortReadGoesWrong | eventlog/normal_log.go:318-325 | a fresh reader of two plain bytes and a control goes wrong on a destination of one byte, whatever follows |
| XmlEscape.EofOnlyAtTheEnd | eventlog/normal_log.go:298-331 | a read with room reports the end if and only if nothing is left |
| XmlEscape.ReadsYieldEscapedBlocks | eventlog/normal_log.go:306-331 | for every input and destinations of 256 bytes or more, the outputs concatenate to the escaped blocks, complete exactly at the end, within as many reads as bytes |
| XmlEscape.EscapeLength | eventlog/normal_log.go:316-325 | the output is five bytes longer per escape |
| XmlEscape.BlocksAgainstText | eventlog/normal_log.go:312-325 | escaping block by block equals escaping the whole text if and only if no block edge splits a control |
| XmlPromise.PromiseKeptIffClean | eventlog/normal_log.go:285-289 | what the reader yields is the text with every control escaped, as its comment promises, if and only if no byte from tab to carriage return and no two-byte control occurs |
| XmlPromise.ReadsKeepPromiseIffClean | eventlog/normal_log.go:306-331 | the same for the bytes a caller gets who reads to the end into destinations of 256 bytes or more |
| XmlPromise.PromisedByByte | eventlog/normal_log.go:285-289 | the promised text can be told byte by byte with one byte of look-ahead |
| XmlPromise.BlocksByByte | eventlog/normal_log.go:312-325 | what the reader yields can be told byte by byte, the look-ahead stopping at a block's edge |
| XmlEscape.PlainIffNoC1 | eventlog/normal_log.go:316-325 | the rune-wise escape is the plain byte-wise one if and only if the text has no non-space two-byte control |
| XmlEscape.PlainWithoutC1 | eventlog/normal_log.go:306-331 | without such controls, what the reader yields is the plain byte-wise escape, whatever the block edges |
| XmlEscape.PlainEscapeIsClean | eventlog/normal_log.go:316-325 | the plain escape holds no control that is not a space |
| XmlEscape.EscapingTwiceChangesNothing | eventlog/normal_log.go:306-331 | the decoder finds no control in the output, and reading it again leaves it as it is |
| CheckpointStore.Checkpoint.constructor | checkpoint/checkpoint.go:80-94 | an empty map, no updates, and a batch size of at least one |
| CheckpointStore.Checkpoint.Open | checkpoint/checkpoint.go:101-117 | loads the last state of each name, then saves it all; an unreadable file or a failed flush is an error and leaves the file alone |
| CheckpointStore.Checkpoint.Flush | checkpoint/checkpoint.go:212-261 | success replaces the file by a name-sorted snapshot of the map; any failure leaves the file alone |
| CheckpointStore.Checkpoint.Persist | checkpoint/checkpoint.go:194-209 | nothing when clean; otherwise a flush, after which all is saved if it succeeds, and file and count are as before if it fails |
| CheckpointStore.Checkpoint.Step | checkpoint/checkpoint.go:127-152 | an update always reaches the map; when the batch is full, or at a timer or the end with updates unsaved, a successful flush saves all and resets the count; in every other case file and count stay |
| CheckpointStore.TurnMeans | checkpoint/checkpoint.go:127-152 | the same of a turn on values: exactly when a flush is due, and what it leaves |
| CheckpointStore.LessIsGoOrder | checkpoint/checkpoint.go:234 | names are ordered as Go strings: a proper prefix first, otherwise by the first character that differs |
| CheckpointStore.SortSorts | checkpoint/checkpoint.go:230-234 | the distinct names come out strictly sorted and are the same names |
| CheckpointStore.LoadIsLastWins | checkpoint/checkpoint.go:107-111 | loading maps exactly the listed names, each to its last state in the list |
| CheckpointStore.WrittenListReloads | checkpoint/checkpoint.go:229-242 | reloading a written list gives back the map |
| CheckpointStore.SnapshotIsUnique | checkpoint/checkpoint.go:229-242 | the written list depends on the map alone, not on iteration order |
| CheckpointStore.ReloadThenFlush | checkpoint/checkpoint.go:107-116 | reloading and flushing any list writes its last-wins form, once and for all |
| CheckpointMachine.StepInv | checkpoint/checkpoint.go:127-261 | every step, flush sub-step, failure, crash and restart keeps the link between file, memory and accepted updates |
| CheckpointMachine.CrashSafe | checkpoint/checkpoint.go:127-261 | over whole runs the file is complete and is the fold of the accepted updates up to a point; memory adds the last numUpdates; without failures fewer than maxUpdates are unsaved at the loop head |
| CheckpointMachine.CrashAndRestart | checkpoint/checkpoint.go:101-261 | after a crash at any moment of any run a restart finds what the file holds, and memory was that plus exactly the updates still counted |
| CheckpointMachine.OpenIsARun | checkpoint/checkpoint.go:101-117 | the object's start-up, with any outcome of its calls, is a run of the machine from no process to the loop head, or back to none |
| CheckpointMachine.PersistIsARun | checkpoint/checkpoint.go:194-261 | the object's persist, with any outcome of its calls, is a run of the machine's sub-steps |
| CheckpointMachine.TurnIsARun | checkpoint/checkpoint.go:127-152 | every turn of the object's loop is the run of the machine by that turn's own steps, and a flush has failed just when one was due and a call of it failed |
| CheckpointMachine.UpdatesAreAccepted | checkpoint/checkpoint.go:127-152 | as long as the process lives, the updates queued are the updates accepted, in order, but for one still on the channel |
| CheckpointCutoffs.SavedIsNewer | reader/channel_reader.go:389-407 | what a channel reader persists for a batch, or a syslog consumer for a chunk, is a strictly newer state of the same log |
| CheckpointCutoffs.ChunkIsAnIteration | consumer/consumer_syslog.go:73-87 | a consumer's act persists just when an iteration of its loop moves on, with the cutoff of that iteration |
| CheckpointCutoffs.PacketsAreSaved | reader/dns_packet_reader.go:127-139 | the packet reader object persists what the act of a batch of packets says, just when it sends one |
| CheckpointCutoffs.ScannedCutoffs | reader/etl_reader.go:331-371 | the cutoffs an ETL scanner persists for a file whose passing records are in time order start no lower than the one held and never drop |
| CheckpointCutoffs.ActNeverBack | checkpoint/checkpoint.go:138-151 | no act takes a log's durable timestamp back: a step of the worker, a crash, a channel reader's batch, a syslog consumer's chunk, a file of an ETL scanner with its passing records in time order, or a batch of packets that does not end before the last |
| CheckpointRuns.DurableCutoffNeverGoesBack | checkpoint/checkpoint.go:138-151 | between any two moments of any run, with crashes and reloads, the durable cutoff of a log does not go back |
| CheckpointCutoffs.WiredAtDurable | cmd/wineventtail/schduler.go:102-112 | a log with a state on disk is wired with exactly that state, after any crash and restart, and one without with the time of wiring |
| CheckpointRuns.DurableNeverAheadOfHolder | cmd/wineventtail/schduler.go:182-194 | at any moment of any run the durable cutoff is not above the one its reader or consumer holds |
| CheckpointRuns.RewiredWithTheDurable | cmd/wineventtail/schduler.go:102-112 | after a crash at any moment, however many starts and crashes follow and whatever other logs do meanwhile, a log is wired with the state its file held at the crash |
| ChannelReader.Reader.Filter | reader/channel_reader.go:389-399 | keeps each record newer than the moving cutoff; record number, time and bookmark follow the last one kept, and nothing changes when none is |
| ChannelReader.Reader.ReadLoop | reader/channel_reader.go:371-408 | batches sent, states persisted and final state for the reads up to the first end or error, which alone clears the flag |
| ChannelReader.Reader.Run | reader/channel_reader.go:340-355 | one tick, which does nothing when the reader is marked as running and leaves it marked after a failed open |
| ChannelReader.KeptIsRunningMaximum | reader/channel_reader.go:389-399 | what is kept is exactly the strict running maximum above the cutoff |
| ChannelReader.CutoffIsMaximum | reader/channel_reader.go:389-399 | the cutoff after a batch is the greatest of the old cutoff and all timestamps met |
| ChannelReader.StreamIsBatchingFree | reader/channel_reader.go:371-408 | the emitted stream does not depend on how the raw events are split into reads |
| ChannelReader.StreamOverRuns | reader/channel_reader.go:340-408 | nor on how the reads are split into runs |
| ChannelReader.SeenEventsEmitNothing | reader/channel_reader.go:389-399 | events already seen, fed again in any order, emit nothing |
| ChannelReader.SavesRise | reader/channel_reader.go:396-407 | persisted timestamps strictly rise above the starting cutoff, one per batch, at its last record |
| ChannelReader.ConsumedIsUpToFirstEnd | reader/channel_reader.go:371-387 | the reads of a run are exactly those up to and with the first that reports an end or an error |
| ChannelReader.FinalStateIsLastKept | reader/channel_reader.go:396-398 | over any reads the state has the time and record number of the last record sent, and the bookmark of its read |
| ChannelReader.LeftRunningIff | reader/channel_reader.go:340-382 | a tick leaves the reader marked as running if and only if its event reader could not be made or opened, or no read reported an end or error |
| ChannelReader.ReadsNoMoreIff | reader/channel_reader.go:340-382 | and exactly then no later tick ever reads anything |
| SyslogConsumer.Syslog.BatchSend | consumer/consumer_syslog.go:95-131 | in every interleaving of submissions and tasks, exactly the chunk's records newer than the cutoff are attempted, all before it returns; when a submission is refused it returns at once, with what is attempted and what is left in the pool making up the submitted part and a wait group that stays above zero |
| SyslogConsumer.Syslog.HandleChunk | consumer/consumer_syslog.go:73-87 | one iteration on any batch and cutoff, including the one that changes nothing and does not advance |
| SyslogConsumer.Syslog.HandleEvents | consumer/consumer_syslog.go:64-93 | on any batch and after any number of iterations: position and cutoff, the attempts of the chunks passed, the states persisted, and which chunks are left |
| SyslogConsumer.ReturnsIffChunkEndsRise | consumer/consumer_syslog.go:73-87 | the loop ends if and only if every chunk ends above the cutoff left by the one before |
| SyslogConsumer.OrderedBatchReturns | consumer/consumer_syslog.go:73-87 | on a batch in strict time order it ends if and only if the first chunk ends above the cutoff |
| SyslogConsumer.GuardedChunksOf | consumer/consumer_syslog.go:71-87 | the chunks are those of the batch, of 100 records but for the last, and their cutoffs on entry strictly increase |
| FanOut.Manager.AddConsumer | consumer/consumer.go:64-77 | hands over the checkpoint, appends the consumer to its topic, keeps the topic's first channel, gives it a stop channel no other topic has, and leaves other topics alone |
| FanOut.StepInv | consumer/consumer.go:84-100 | the wait group counts exactly the consumers yet to finish the current batch |
| FanOut.TakenIsReceived | consumer/consumer.go:88 | what the worker has taken is what came over the channel, in order |
| FanOut.Barrier | consumer/consumer.go:84-100 | every consumer completes a prefix of the batches that came over the channel, any two are at most one apart, none starts a batch before all completed the one before, and each has begun and finished as many as its own steps say |
| FanOut.WaitIsExact | consumer/consumer.go:89-99 | the wait returns if and only if all have finished, and until then some consumer can move |
| Delivery.ReturnsIffReady | consumer/consumer_syslog.go:64-93 | on a strictly rising stream of batches the consumer returns from all if and only if its first cutoff is below the end of the first chunk |
| Delivery.OfferedStream | consumer/consumer_syslog.go:64-131 | then its tasks are offered the stream once and in order and turn away exactly what is not newer than that first cutoff |
| Delivery.AttemptedIffClients | consumer/consumer_syslog.go:95-131 | all of the rest is attempted, each record once, if and only if a client could be made for every chunk |
| Delivery.Serve | consumer/consumer_syslog.go:64-131 | the consumer object, called for one batch of a rising stream after the other, returns from each and attempts just these chunks |
| Delivery.SafeWiring | cmd/wineventtail/schduler.go:182-194 | the consumer returns from everything any ticks of the reader can send if and only if its cutoff is not above the reader's |
| Delivery.EndToEnd | consumer/consumer_syslog.go:64-131 | over all ticks and every run of the manager that receives what they send, for any two cutoffs: exactly when every call returns, that each emitted record newer than the consumer's cutoff is attempted once if and only if all clients could be made, and that the consumer stays at or below the reader's cutoff |
| Delivery.Deliver | consumer/consumer_syslog.go:64-131 | the same of the consumer object serving its history |
| Recovery.EmittedAgain | reader/channel_reader.go:389-407 | a record emitted before a crash is emitted again after it if and only if it is newer than the cutoff the reader restarts from |
| Recovery.UnattemptedIsNewer | consumer/consumer_syslog.go:73-87 | whenever the process dies, what was emitted above the consumer's first cutoff and is not attempted is newer than the cutoff it holds |
| Recovery.AttemptedAcrossCrash | reader/channel_reader.go:396-407 | a record emitted before a crash is attempted in one life or the other if and only if it was attempted before or is newer than the cutoff the reader restarts from |
| Recovery.NothingLostIff | reader/channel_reader.go:396-407 | a crash loses nothing if and only if what was emitted between the cutoff the consumer holds and the reader's durable one was being attempted at that moment |
| Recovery.ReaderFollows | reader/channel_reader.go:389-407 | over any run of the checkpoint, what the reader holds follows from its own reads since it was wired |
| Recovery.ConsumerFollows | consumer/consumer_syslog.go:71-87 | and what the consumer holds from the chunks it has passed |
| Recovery.AttemptedAfterRestart | checkpoint/checkpoint.go:127-261 | with both checkpoints run from their start through the wiring and this life's reads and chunks to the crash: the reader's durable cutoff is not above where its reads led, when the consumer returns from the next life's stream, exactly which records are then made up for, and exactly when none is lost |
| CrashLoss.RecordCanBeLost | reader/channel_reader.go:396-407 | for every log, state on disk and newer record there is such a history in which that record is lost |
| DnsPacketReader.UnpackedCons | reader/dns_packet_reader.go:84-105 | read from the front, a packet that unpacks is its record and nothing else is |
| DnsPacketReader.Reader.Save | reader/dns_packet_reader.go:127-139 | sends the whole buffer, empties it, and persists the device's name and the time of the last record |
| DnsPacketReader.Reader.Step | reader/dns_packet_reader.go:84-105 | the buffer goes out just when it is full, or at a tick that finds it non-empty, with the time of its last record persisted; otherwise it only grows |
| DnsPacketReader.Reader.Run | reader/dns_packet_reader.go:75-111 | over any inputs, sent batches and buffer make up the unpacked packets in order; batches and buffer keep their bounds, and each batch has the time of its last record persisted under the device's name |
| BpfFilter.GetBpfFilterString | reader/dns_packet_reader.go:153-169 | the loop builds the text whose meaning FilterSelects states |
| BpfFilter.FilterSelects | reader/dns_packet_reader.go:153-169 | read with equal-precedence, left-associative and/or, the text accepts exactly DNS over UDP of one of the addresses, or of any when none is given |

## Left out

- The Windows event API, powershell, tracerpt, packet capture and unpacking, the syslog and FTP clients and file-system calls: only their success, failure or nondeterministic result appears.
- `consumer/consumer_ftp.go`, `eventlog/dns_log.go`, `global/`, `deploy/` and the service wiring in `cmd/` beyond the initial cutoffs.
- YAML and XML parsing: a checkpoint file is a faithful list of states, complete, absent or broken; a parsed file is any sequence of records. The fields stripped from a record before it is sent are empty when it is parsed, so stripping is the identity.
- Shutdown flags, closed channels, errors of pool submission in the ETL reader (only after a pool is released), and the back-pressure counter of the ETL reader.
- Wall clock, sleeps, timeouts and log lines: nondeterministic steps. Timestamps have no UnixNano overflow.
- A rename is atomic, and creating the checkpoint's directory on demand is part of the outcome of creating the temporary file.
- Goroutines and channels of the ETL pipeline, the checkpoint worker under crashes and the manager's worker are step relations on values: data races inside one step, such as the removal of a list element without the lock after a failed conversion, are not modelled.
- At start-up there are at most 20 files of each kind, as nothing reads the queues yet. That two elements of one name are the same file on disk, which the first to be scanned removes, is not modelled beyond the read failure it may cause.
- EtlProgress.Drains: the records channel, the consumers and the checkpoint keep draining, and the condition on overtakers is about the state in which the steps end.
- XmlSafeReader.Reader.Read: takes the destination to be another array than the reader's own block; the XML decoder's buffering in front of it is not part of this model.
- XmlEscape.PlainEscapeIsClean: says nothing of the Char production of XML 1.0, as vertical tab and form feed pass as spaces.
- SyslogConsumer.Syslog.HandleChunk: every task is submitted; a submission is refused only once the pool has been released at shutdown. The network outcome of an attempt does not matter to the code and is left out.
- Delivery.EndToEnd: assumes as HandleChunk does that every task is submitted.
- CheckpointRuns.DurableCutoffNeverGoesBack: packet times are taken as they come, so for a packet reader's log the last packet of a batch must not be older than that of the batch before; a log has one reader.
- EtlDelivery.EveryRunReturnsIffEndsRise: the chunk size is at least one; below that the scanner panics on the first new record, as Scanner.Emit states, and the pipeline's step relation goes no further than that.
- Recovery.AttemptedAfterRestart: one crash; every client can be made; a state of the log has reached both disks; and the event API returns again, in order, what it returned before, except for events not newer than the cutoff it is opened with.
- BpfFilter.FilterSelects: addresses are words without spaces, so an address that failed to parse, which prints as `<nil>`, is read as such a word.
