# A verified model of dedup and of the container host module

This project models two parts of the repository and proves what they are for.

**The dedup compressor** (`apps/parsec/dedup`). The encoder cuts a file into content-defined chunks,
replaces repeated chunks by digests and writes an archive; the decoder rebuilds the file.

- `Chunking`, `Source`, `Fragmenter`: content-defined cutting as a function of the whole input, and the loops
  of the serial encoder, of `Fragment` and of `FragmentRefine` that compute it from a buffer filled by reads
  of any size.
- `Archive`, `FileFormat`, `Decoder`: records, their bytes, the decode loop with its chunk cache and reuse of
  chunk objects.
- `SerialEncoder`, `Statistics`: the in-order encoder with its cache, its archive and its counters.
- `ReorderSpec`, `Reorder`: the reorder stage, as steps on a value and as the loop over a search tree, queues
  and an array that doubles.
- `QueueSetup`, `Buffers`, `Pipeline`: the parallel encoder as a state machine. One `Fragment` thread, three
  pools of workers (`FragmentRefine`, `Deduplicate`, `Compress`) and one `Reorder` thread run between bounded
  queues; a step is what one thread does between two points where another can be scheduled, so a list of
  steps is an interleaving. A failed assertion, a use of a freed buffer or of an uninitialised lock leads into
  a `fault` state, an access behind `chunks_per_anchor` into an `overrun` state.
- `Invariant`, `MoveProofs`, `FrontProofs`, `ControlProofs`, `FragmentProofs`, `WorkProofs`, `ReorderProofs`:
  the invariant of the state machine, and that every step keeps it.
- `Runs`, `Capacity`, `Completion`, `LifeCycle`, `Release`, `Progress`, `Termination`, `SingleThread`: the
  theorems about whole runs.
- `Witness`, `WitnessRuns`: two concrete runs, one that leaves the array of counts and one that gets stuck.

The main results for the parallel encoder hold for every input, every number of threads and queues, all
buffer sizes and every interleaving: no fault is reachable; whenever Reorder leaves its loop every piece has
been written once and in order, and nothing is left anywhere; the records are at every moment a prefix of
what an in-order writer produces for the same pieces, whoever wins the race for the table; decoding gives the
input back; every table entry was compressed, flushed and released exactly once, and every duplicate freed;
every run is finite with an explicit bound. A run that can go no further is complete, has left the array of
counts, or is stuck behind a full reorder queue while Reorder waits. The last two do happen, but the array is
never left if everything in front of the cache holds no more chunks than the array has places at first, and no
run with one thread per pool gets stuck.

**The container host module** (`source/cki_kmod/pkm_main.c`).

- `InterruptCounter`: the lock-free counter between the eventfd callback and the vCPU run loop.
- `VirtioMmio`, `VirtioRuns`: the virtio-mmio register file and what runs of guest writes do to it.
- `Pcid`: the assignment of PCIDs and their enforcement before each guest entry.
- `BootPageTable`: the identity map a container boots with.

## Parameters and contracts

The headers `queue.h`, `tree.h`, `binheap.h`, `hashtable.h`, `rabin.h`, `mbuffer.h`, `util.h` and `dedupdef.h`
are not part of this model. A queue is a first-in first-out list whose dequeue gives up exactly when it is
empty and all declared producers have terminated; the hash table is a map; the tree with its heaps is read
through its minimum only; `rabinseg` is any function under the contract `PrefixStable`; SHA-1 (section 6.1 of
FIPS 180-4) and the compression library are functions under the contract `Lossless`: inflating undoes
compression, and compression never fails. The decoder inflates into a buffer of a fixed size, UNCOMPRESS_BOUND,
for gzip and bzip2; that size is the parameter `bound` of the codec, and a longer chunk takes the decoder's
error exit. `PlainCodecIsLossless` shows that copying meets the contract with any bound; COMPRESS_NONE has none.

Where a round trip needs different digests for different chunks of the input the hypothesis is `NoCollision`.
The lengths that `read_chunk` and `uncompress_chunk` pass through a C `int` are modelled with `ToInt`, so the
round trips hold exactly when every stored chunk fits into the decoder's buffer and its lengths are positive as
an `int`. The encoder keeps the result of `rabinseg` in an `int` too (apps/parsec/dedup/encoder.c:667, 893,
1108); there it is a natural number, which is exact for buffers below 2^31 bytes.

## Where the code differs from its documentation

- The comment at apps/parsec/dedup/encoder.c:1238 speaks of doubling the array if necessary; it is doubled
  once, which is enough exactly for level-1 numbers below twice the capacity (`Reorder.EveryOrderFits`).
- Writing 0 to the device status is a reset in section 4.2.2 of VIRTIO 1.1; the code ignores it
  (`VirtioRuns.ZeroIsIgnored`).
- A driver must not clear a status bit (section 2.1.1 of VIRTIO 1.1), but the code lets DRIVER_OK be written
  with FEATURES_OK cleared, and features can then be acknowledged again (`VirtioRuns.ThawsExactly`).
- The decoder inflates gzip and bzip2 chunks into a buffer of fixed size and gives up on longer ones
  (apps/parsec/dedup/decoder.c:122-126, 143), while the encoder's chunks can be as long as its read buffer: such
  an archive is written and cannot be read (`Archive.TooLongForTheBuffer`, `SerialEncoder.FiveBytesInFour`).
- Deduplicate and Compress feed the same bounded queues to Reorder, which stops reading them while it waits for
  an original. With two threads and small queues that is a deadlock (`WitnessRuns.StuckHappens`).
- Only CPU 0 is woken: a halt call on any other CPU never returns (`InterruptCounter.OthersGetNoWakeup`).
- The word that carries the number of a call to the host (source/cki_kmod/pkm_main.c:585) carries the events to
  the guest (source/cki_kmod/pkm_main.c:663, source/cki_kernel/kernel.patch:731). The exits at
  source/cki_kmod/pkm_main.c:630, 642 and 649 do not set it, and the launcher enters again
  (source/launcher/cki_launcher/main.c:124-137): the guest then gets the number of its own call as events, and
  12, 14 and 15 contain the virtio event (`InterruptCounter.EventFromNowhere`).

## Model

| member | source | states |
|---|---|---|
| Chunking.ChunksPartition | apps/parsec/dedup/encoder.c:890-950 | the chunks of the whole input are never empty and put together are the input |
| Chunking.FirstChunk | apps/parsec/dedup/encoder.c:890-950 | a cut found inside a buffer does not depend on what is read later |
| Chunking.ChunksExactly | apps/parsec/dedup/encoder.c:888-950 | a list is the chunk list of an input exactly when its parts make up the input and each ends at the first cut the segmenter finds in what remains |
| Chunking.CoarseCutIsPrefixStable | apps/parsec/dedup/encoder.c:1103-1155 | skipping ANCHOR_JUMP bytes before looking for a cut gives again a stable segmenter |
| Chunking.CoarseChunksExactly | apps/parsec/dedup/encoder.c:1103-1155 | a list is the list of coarse chunks exactly when its parts make up the input and each ends at the first cut behind the first ANCHOR_JUMP bytes of what remains, or takes all of it |
| Chunking.CoarseCuts | apps/parsec/dedup/encoder.c:1106-1121 | every coarse chunk but the last is longer than ANCHOR_JUMP, by exactly what the segmenter finds behind the jump; the last one has no cut there |
| Chunking.TwoLevelExactly | apps/parsec/dedup/encoder.c:663-723 | a list of rows is the plan of an input exactly when the rows make up coarse chunks like that and each row is cut where the segmenter says, from its beginning |
| Chunking.TwoLevelConcat | apps/parsec/dedup/encoder.c:663-723 | cutting into coarse chunks and cutting these again loses nothing: the pieces in (l1, l2) order are the input |
| Source.Input.Read | apps/parsec/dedup/encoder.c:816-838 | a read delivers a non-empty prefix of what is unread, or nothing at the end of the file only |
| Source.Input.Fill | apps/parsec/dedup/encoder.c:808-839 | whatever the sizes of the reads, and with preloading, the buffer gets the same prefix; the seek never passes the file size |
| Fragmenter.SplitCoarse | apps/parsec/dedup/encoder.c:1102-1155 | the split loop keeps done chunks, buffer and unread bytes together the chunk list of the input, with consecutive level-1 numbers |
| Fragmenter.Fragment | apps/parsec/dedup/encoder.c:1011-1156 | the coarse chunks are those of the whole-input chunker, numbered 0, 1, 2, ... also when a leftover moves into a new buffer |
| Fragmenter.Refine | apps/parsec/dedup/encoder.c:661-734 | the pieces of a coarse chunk are those of the chunker, numbered from 0, with exactly the last one marked; the loop ends |
| Archive.RecordsOfIsWellShaped | apps/parsec/dedup/encoder.c:285-298 | the archive of an in-order writer has one data record per digest, in front of all its fingerprints |
| Archive.RecordsOfPrefix | apps/parsec/dedup/encoder.c:285-298 | the archive of a prefix of the chunks is a prefix of the archive |
| Archive.DecodeUndoesRecords | apps/parsec/dedup/decoder.c:213-250 | decoding the records of any chunk list gives back its bytes exactly when every stored chunk fits into the decoder's buffer and has lengths that are positive as a C int |
| Archive.TooLongForTheBuffer | apps/parsec/dedup/decoder.c:121-155 | a chunk longer than the decoder's buffer is archived and ends the decoding with an error, whatever its lengths as ints |
| Archive.NeverMissing | apps/parsec/dedup/decoder.c:239-245 | on a well-shaped archive the exit for a duplicate without counterpart is never taken |
| Archive.PlainCodecIsLossless | apps/parsec/dedup/encoder.c:320-330 | copying meets the codec contract, without a bound (COMPRESS_NONE) and with any |
| FileFormat.LittleEndianRoundTrip | apps/parsec/dedup/encoder.c:216-218 | the length field comes back modulo its width |
| FileFormat.LittleEndianByte | apps/parsec/dedup/encoder.c:216-218 | byte k of the length field is digit k of the length in base 256 |
| FileFormat.RecordBytes | apps/parsec/dedup/encoder.c:210-223 | the bytes of a record place by place: type at 0, the length from 1 on with the least significant byte first, content from 9 on |
| FileFormat.LengthOf300 | apps/parsec/dedup/encoder.c:210-223 | the first nine bytes of a data record of 300 bytes |
| FileFormat.ReadUndoesWrite | apps/parsec/dedup/decoder.c:60-98 | reading the bytes of one record returns it, or the exact error its length causes as an int |
| FileFormat.DecodeSerialized | apps/parsec/dedup/decoder.c:213-250 | decoding the bytes of a record list is decoding the list |
| FileFormat.BadRecords | apps/parsec/dedup/decoder.c:60-98 | which error reading ends with when the file breaks off in type, length or content, at an unknown type, a digest of a wrong length or empty data |
| FileFormat.BadRecordEnds | apps/parsec/dedup/decoder.c:213-250 | behind good records such a record ends the decoding with its error, after exactly the data of the good ones was written |
| FileFormat.MissingCounterpartEnds | apps/parsec/dedup/decoder.c:239-245 | behind good records a digest ends the decoding for want of its counterpart exactly when none of them holds data with this digest |
| FileFormat.ParseUndoesSerialize | apps/parsec/dedup/encoder.c:210-223 | parsing the concatenated records returns the list exactly when every length is positive as an int |
| FileFormat.FileRoundTrip | apps/parsec/dedup/decoder.c:60-98 | writer, file format and decoder undo each other for any chunk list without collision, exactly when every stored chunk fits into the decoder's buffer and has lengths that are positive as a C int |
| Decoder.Decoding.ReadNext | apps/parsec/dedup/decoder.c:60-101 | fills the working object with the record that the byte-level reader finds, or takes its error exit |
| Decoder.Decoding.Uncompress | apps/parsec/dedup/decoder.c:104-170 | the object holds the decompressed data, or the failure is reported, also for a length that is not positive as an int |
| Decoder.Decoding.Resolve | apps/parsec/dedup/decoder.c:227-245 | the entry holds the data of the record; no cached object is changed |
| Decoder.Decoding.DecodeOne | apps/parsec/dedup/decoder.c:213-250 | one turn does what the decode function says; no cached object is ever overwritten, and the object for the next turn is not a cached one |
| Decoder.Decoding.Decode | apps/parsec/dedup/decoder.c:213-250 | the loop computes the decode function of the whole file, with the same output and error |
| SerialEncoder.OneMore | apps/parsec/dedup/encoder.c:855-878 | what one more chunk adds to digests, records and statistics of the chunk list |
| SerialEncoder.Encoder.SubDeduplicate | apps/parsec/dedup/encoder.c:474-511 | a new digest enters the cache with this object; a known one makes the chunk a duplicate that refers to the cached object |
| SerialEncoder.Encoder.SubCompress | apps/parsec/dedup/encoder.c:310-386 | the compressed data is that of the uncompressed data, which is released |
| SerialEncoder.Encoder.WriteChunk | apps/parsec/dedup/encoder.c:287-298 | a data record for a unique chunk, a digest for a duplicate |
| SerialEncoder.Encoder.ArchiveChunk | apps/parsec/dedup/encoder.c:910-937 | keeps cache, records and statistics equal to the functions of the chunks processed so far |
| SerialEncoder.Encoder.SplitBuffer | apps/parsec/dedup/encoder.c:888-950 | every cut inside the buffer ends a chunk; the rest has none |
| SerialEncoder.Encoder.Run | apps/parsec/dedup/encoder.c:776-951 | for any segmenter, buffer size and partial reads the loop archives exactly the chunks of the whole-input chunker |
| SerialEncoder.SerialRoundTrip | apps/parsec/dedup/encoder.c:776-951 | the archive of a serial run decodes to the input exactly when every stored chunk fits into the decoder's buffer and has lengths that are positive as a C int |
| SerialEncoder.UncutInputIsLost | apps/parsec/dedup/decoder.c:121-155 | an input without a cut that exceeds the decoder's buffer is archived and cannot be decoded |
| SerialEncoder.FiveBytesInFour | apps/parsec/dedup/decoder.c:121-155 | a concrete such input, with a codec and a segmenter that meet their contracts; a buffer of just its size takes it |
| Statistics.HistogramTotal | apps/parsec/dedup/encoder.c:96-101 | every chunk is counted in exactly one slot |
| Statistics.SlotExactly | apps/parsec/dedup/encoder.c:96-101 | a slot holds the sizes from 128 times its number up to the next one, the last slot all larger ones |
| Statistics.ArchiveLength | apps/parsec/dedup/encoder.c:210-223 | nine bytes of frame per record, the compressed first occurrences and one digest per repetition |
| Statistics.Accounting | apps/parsec/dedup/encoder.c:853-937 | histogram sum = duplicates + data records; total_dedup + bytes of the repetitions = input length; archive length = 9 per chunk + total_compressed + SHA1_LEN * duplicates |
| ReorderSpec.ReceiveKeepsSorted | apps/parsec/dedup/encoder.c:1238-1265 | receiving any chunk of the set that has not come yet keeps the invariant; the slot of a last piece is still 0 |
| ReorderSpec.WriteKeepsSorted | apps/parsec/dedup/encoder.c:1268-1297 | writing keeps: the output is a prefix of the order, next is the place behind it and not cached, everything cached comes later |
| ReorderSpec.CompleteIsWritten | apps/parsec/dedup/encoder.c:1300-1328 | once all chunks have arrived everything is written in order and the cache is empty, so the flush loop does nothing |
| ReorderSpec.WrittenIsBefore | apps/parsec/dedup/encoder.c:1268-1297 | written is exactly what comes before next |
| ReorderSpec.OrderElement | apps/parsec/dedup/encoder.c:1251-1297 | the reference order lists every chunk of the set exactly once |
| ReorderSpec.IndexIsMonotone | apps/parsec/dedup/encoder.c:1251-1297 | the reference order is lexicographic |
| ReorderSpec.InBoundsExactly | apps/parsec/dedup/encoder.c:1238-1244 | doubling once is enough exactly for numbers below twice the capacity |
| Reorder.Stager.Note | apps/parsec/dedup/encoder.c:1238-1249 | growth keeps the recorded counts and fills with 0; the size of a coarse chunk is noted with its last piece |
| Reorder.Stager.Keep | apps/parsec/dedup/encoder.c:1251-1265 | the chunk joins the cache in the min-queue of its level-1 number |
| Reorder.Stager.DeleteMin | apps/parsec/dedup/encoder.c:1282-1288 | exactly the least chunk leaves the cache; an empty node leaves the tree |
| Reorder.Stager.MoveNext | apps/parsec/dedup/encoder.c:1275-1276 | the expected number moves as the abstract stage says |
| Reorder.Stager.WriteOne | apps/parsec/dedup/encoder.c:1268-1297 | one turn over tree and heaps refines the abstract write step |
| Reorder.Stager.Accept | apps/parsec/dedup/encoder.c:1238-1265 | one arrival refines the abstract receive step |
| Reorder.Stager.Run | apps/parsec/dedup/encoder.c:1225-1328 | for every arrival order of a complete set each chunk is written once, in lexicographic order, and the mismatch exits are not taken |
| Reorder.EveryOrderFits | apps/parsec/dedup/encoder.c:1238-1244 | all arrival orders stay inside chunks_per_anchor exactly when there are at most twice as many coarse chunks as places |
| QueueSetup.ProducerCountIsRight | apps/parsec/dedup/encoder.c:1372-1397 | the number of threads mapped to a queue is the producer count the queue was initialised with |
| QueueSetup.QueueOfThread | apps/parsec/dedup/encoder.c:1372-1397 | every thread maps to one of the queues |
| QueueSetup.QueuesAreShared | apps/parsec/dedup/encoder.c:1372-1397 | queue q belongs to the threads from q * MAX_THREADS_PER_QUEUE on, that many, and there are as few queues as that allows |
| Buffers.MoveKeepsUnique | apps/parsec/dedup/encoder.c:433-447 | passing chunks on keeps every chunk in exactly one place |
| ControlProofs.FinishedMeansStopped | apps/parsec/dedup/encoder.c:443-453 | a queue that counts as terminated has no producer left that has not stopped |
| ControlProofs.TargetIsOpen | apps/parsec/dedup/encoder.c:584-599 | no queue counts as terminated while a thread that may still feed it runs, although Compress alone terminates the reorder queues that Deduplicate feeds too |
| ControlProofs.PollEndedControl | apps/parsec/dedup/encoder.c:1226-1234 | a round in which each queue was found finished covers all queues |
| FragmentProofs.FragReadKeeps | apps/parsec/dedup/encoder.c:1011-1101 | reading keeps the invariant: the coarse chunks still to come are those of buffer and unread bytes, under the next numbers |
| FragmentProofs.FragSplitKeeps | apps/parsec/dedup/encoder.c:1102-1155 | splitting keeps the invariant; the ring buffer has room for every insert |
| FragmentProofs.FragPushKeeps | apps/parsec/dedup/encoder.c:1131-1163 | passing on part of the ring buffer keeps the invariant |
| FragmentProofs.FragTerminateKeeps | apps/parsec/dedup/encoder.c:1169-1172 | terminating a refine queue keeps the invariant |
| WorkProofs.CutFinds | apps/parsec/dedup/encoder.c:663-723 | what the split loop finds at the front of the rest of a row is the next piece of the plan |
| WorkProofs.CutKeeps | apps/parsec/dedup/encoder.c:661-734 | one turn of the split loop keeps the invariant: the piece goes on, the rest is a new chunk with the next level-2 number |
| WorkProofs.DedupKeeps | apps/parsec/dedup/encoder.c:474-511 | sub_Deduplicate keeps the invariant, in both branches and for any number of racing threads |
| WorkProofs.CompressKeeps | apps/parsec/dedup/encoder.c:310-386 | sub_Compress keeps the invariant and its assertion holds |
| WorkProofs.FetchKeeps | apps/parsec/dedup/encoder.c:416-421 | fetching a group from a queue keeps the invariant |
| WorkProofs.PushKeeps | apps/parsec/dedup/encoder.c:433-447 | passing on a send buffer, in whole or in part, keeps the invariant |
| WorkProofs.StopKeeps | apps/parsec/dedup/encoder.c:449-453 | terminating the output queue after draining keeps the invariant |
| ReorderProofs.PollKeeps | apps/parsec/dedup/encoder.c:1225-1234 | asking the queues in turn keeps the invariant |
| ReorderProofs.ReceiveKeeps | apps/parsec/dedup/encoder.c:1235-1265 | receiving keeps the invariant; the array is overrun exactly when its single doubling is not enough |
| ReorderProofs.OwnerStandsFor | apps/parsec/dedup/encoder.c:261-265 | the object that write_chunk_to_file uses is the table's object for the digest of the chunk |
| ReorderProofs.EmitRecords | apps/parsec/dedup/encoder.c:261-284 | the record appended is data for the first chunk with its digest in output order, a digest for all others |
| ReorderProofs.WriteKeeps | apps/parsec/dedup/encoder.c:1268-1297 | writing, releasing and taking the next chunk from the cache keeps the invariant |
| Runs.RunKeepsInv | apps/parsec/dedup/encoder.c:397-1337 | the invariant holds after every interleaving, for every input and configuration, and no fault is reachable |
| Runs.PushesAreInTime | apps/parsec/dedup/encoder.c:567-599 | in every run no chunk is put into a queue that counts as terminated |
| Runs.QueuesTakeTurns | apps/parsec/dedup/encoder.c:1131-1163 | in every run Fragment feeds its queues, and Reorder asks its queues, in turn: the k-th time queue k modulo the number of queues |
| Runs.NeverOverrun | apps/parsec/dedup/encoder.c:1238-1249 | with at most twice as many coarse chunks as places no schedule leaves chunks_per_anchor |
| Capacity.StepKeepsRoom | apps/parsec/dedup/encoder.c:397-1235 | no step of any thread overfills a ring buffer or a queue |
| Capacity.NeverOverrunByCapacity | apps/parsec/dedup/encoder.c:1238-1249 | a condition on the configuration alone: if all queues and buffers in front of the cache hold together no more chunks than chunks_per_anchor has places at first, no input of any size and no schedule leaves the array |
| WitnessRuns.OverrunHappens | apps/parsec/dedup/encoder.c:1238-1249 | a concrete run of three coarse chunks, one place and one thread per pool that leaves the array |
| Completion.DryUpstream | apps/parsec/dedup/encoder.c:416-453 | the queues a pool feeds are finished only when the queues it reads are finished and empty |
| Completion.ExitedIsWritten | apps/parsec/dedup/encoder.c:1225-1328 | Reorder exits only after receiving every chunk, and then the output is the whole order |
| Completion.ExitMeansComplete | apps/parsec/dedup/encoder.c:1225-1328 | a complete run has written every piece exactly once in lexicographic order and left nothing in any buffer, queue or cache |
| Completion.ArchiveIsRight | apps/parsec/dedup/encoder.c:261-283 | at every moment record i is data exactly when piece i is the first with its digest, whichever thread owns the digest; no collision hypothesis |
| Completion.ArchiveIsWellShaped | apps/parsec/dedup/encoder.c:261-298 | in every reachable state at most one data record per digest, in front of its fingerprints; the decoder never misses a counterpart |
| Completion.ScheduleIndependence | apps/parsec/dedup/encoder.c:261-298 | the records are at any time a prefix of what the in-order writer produces for the same pieces, and all of it at the end |
| Completion.ParallelRoundTrip | apps/parsec/dedup/decoder.c:213-250 | for every input and every interleaving that runs to completion, decoding the records gives the input, exactly when every stored chunk fits into the decoder's buffer and has lengths that are positive as a C int |
| Completion.ParallelFileRoundTrip | apps/parsec/dedup/decoder.c:60-98 | the same for the bytes of the archive file |
| LifeCycle.RunLives | apps/parsec/dedup/encoder.c:261-283 | in every step of every run a chunk's state stays or makes its one next move: compressed by Compress, flushed and released by the write; only a written duplicate is freed |
| Release.ExitReleasesAll | apps/parsec/dedup/encoder.c:261-298 | when Reorder has left its loop every table entry is flushed with its data released, every piece has an entry for its digest, and exactly the pieces that are not entries have been freed |
| Release.ExactlyOnce | apps/parsec/dedup/encoder.c:261-386 | in a complete run exactly one step compressed each table entry and exactly one flushed it |
| LifeCycle.EntryLives | apps/parsec/dedup/encoder.c:484-508 | a table entry is never replaced or freed, keeps its lock, and its state only moves forward |
| LifeCycle.ReferencesAreAlive | apps/parsec/dedup/encoder.c:502-505 | every compressed_data_ref points to a live, locked, non-duplicate object with the same digest |
| LifeCycle.ChunkIsSomewhereOnce | apps/parsec/dedup/encoder.c:691-730 | a chunk that exists is at every later time in exactly one place, once |
| Progress.FragCanGoOn | apps/parsec/dedup/encoder.c:1158-1172 | Fragment always has a step until it has terminated all its queues, if no queue is full |
| Progress.WorkerCanGoOn | apps/parsec/dedup/encoder.c:544-599 | a worker with room in the queues it feeds has a step unless it has stopped or sleeps in front of an empty unfinished queue |
| Progress.UncompressedIsUpstream | apps/parsec/dedup/encoder.c:267-270 | an original that Reorder waits for is with Compress or in front of it |
| Progress.SomeoneCanGoOn | apps/parsec/dedup/encoder.c:1225-1234 | while no reorder queue is full every reachable state that is not the end has an enabled step, however full the other queues are |
| Progress.StuckMeans | apps/parsec/dedup/encoder.c:1225-1270 | a run that can go no further is complete, has left the array, or is stuck in one of two ways: a reorder queue is full while Reorder waits for an original still with Compress or in front of it, or for another queue that is empty and not finished |
| SingleThread.SingleThreadIsNeverStuck | apps/parsec/dedup/encoder.c:397-1337 | with one thread per pool a run that can go no further is complete or has left the array, whatever the sizes of queues and buffers |
| WitnessRuns.StuckHappens | apps/parsec/dedup/encoder.c:1225-1270 | a concrete run with two threads per pool that is stuck before the end |
| Termination.StepLowersMeasure | apps/parsec/dedup/encoder.c:416-453 | every step lowers a measure over unread bytes, chunk places, thread phases and polled queues |
| Termination.RunIsBounded | apps/parsec/dedup/encoder.c:1225-1234 | every run is at most as long as a bound given by input, threads and queues |
| Termination.MaximalRunsComplete | apps/parsec/dedup/encoder.c:1225-1328 | with queues larger than the number of pieces, and an array large enough for the input or for the configuration, every run that cannot go on is complete |
| InterruptCounter.SwappedOk | source/cki_kmod/pkm_main.c:655-660 | a compare-and-swap fails only after a wakeup since the load, and no other failed swap names that wakeup |
| InterruptCounter.WakeupsAreCounted | source/cki_kmod/pkm_main.c:723-737 | the wakeups of a state are the callbacks with EPOLLIN among the steps of the run |
| InterruptCounter.HistoryIsRight | source/cki_kmod/pkm_main.c:655-663 | the deliveries and the successful swaps a CPU carries are those of the steps of the run |
| InterruptCounter.Accounting | source/cki_kmod/pkm_main.c:655-663 | counted over the steps of any run: with fewer than 2^31 wakeups outstanding c >= 0 is their number and W - c <= L < 2W - c for the deliveries L of the loop (L = 0 if W = 0), each failed swap paid by a wakeup of its own; with the events M that restarts make up, L + M <= 2W - c holds exactly while M and the failed swaps are no more than the wakeups |
| InterruptCounter.EverySwapFails | source/cki_kmod/pkm_main.c:655-663 | the upper bound is reached, for every number of turns: a wakeup between each load and its swap |
| InterruptCounter.RestartDelivers | source/cki_kmod/pkm_main.c:585-663 | an exit and a new start of the loop deliver an event exactly when the number of the call has the bit of the event |
| InterruptCounter.ExitsExactly | source/cki_kmod/pkm_main.c:595-653 | which calls leave the loop, and which of them have the bit: all three after which the launcher starts again do |
| InterruptCounter.EventFromNowhere | source/cki_kmod/pkm_main.c:627-663 | a concrete run, on any CPU, that delivers an event without any wakeup |
| InterruptCounter.CleanRunsAreBounded | source/cki_kmod/pkm_main.c:655-663 | in runs without such exits the bounds hold for all deliveries |
| InterruptCounter.HaltSleeps | source/cki_kmod/pkm_main.c:393-398 | a halt call sleeps, and a look at the counter ends the sleep exactly unless the outstanding wakeups are a multiple of 2^32 |
| InterruptCounter.HaltReturnsWithEvent | source/cki_kmod/pkm_main.c:393-398 | a halt call that returns enters the guest with the virtio event set, exactly unless the outstanding wakeups are a multiple of 2^32 |
| InterruptCounter.OthersGetNoWakeup | source/cki_kmod/pkm_main.c:723-737 | CPUs other than 0 get exactly the events that restarts make up, and their halt never ends |
| InterruptCounter.TurnsDrain | source/cki_kmod/pkm_main.c:655-663 | what is outstanding is delivered one a turn when no new wakeups come |
| VirtioMmio.WithLowExactly | source/cki_kmod/pkm_main.c:511-513 | writing a low half gives hi * 2^32 + lo exactly when the value has no upper bits that the old upper half lacks |
| VirtioMmio.WithHighAlways | source/cki_kmod/pkm_main.c:514-516 | writing a high half always replaces the upper word only |
| VirtioMmio.VirtioNet.constructor | source/cki_kmod/pkm_main.c:246-267 | the initial registers; selector, sizes and addresses keep stale memory |
| VirtioMmio.OfferedBits | source/cki_kmod/pkm_main.c:251-258 | which feature bits are offered |
| VirtioMmio.AcceptedExactly | source/cki_kmod/pkm_main.c:437-455 | the status values that are accepted from each status, as numbers |
| VirtioMmio.WriteAnswers | source/cki_kmod/pkm_main.c:484-539 | which writes get stuck, which one kicks which queue, and which one answers anything but 0 |
| VirtioMmio.ReadAnswers | source/cki_kmod/pkm_main.c:412-435 | which reads get stuck, and the registers that identify the device |
| VirtioMmio.VirtioNet.WriteDeviceStatus | source/cki_kmod/pkm_main.c:437-455 | accepts the four transitions, ignores 0 and is stuck otherwise |
| VirtioMmio.VirtioNet.WriteAckedFeatures | source/cki_kmod/pkm_main.c:457-482 | adds the offered available features while DRIVER is set and FEATURES_OK and FAILED are not |
| VirtioMmio.VirtioNet.Write | source/cki_kmod/pkm_main.c:494-539 | the whole dispatch as a function of the register values, including the stuck branches |
| VirtioMmio.VirtioNet.WriteQueue | source/cki_kmod/pkm_main.c:509-531 | the registers of the selected queue |
| VirtioRuns.OnlySelectedChanges | source/cki_kmod/pkm_main.c:107-119 | a write changes the selected queue only, and none when the selection is out of range |
| VirtioRuns.AddressAfter | source/cki_kmod/pkm_main.c:508-528 | after any run of writes an address is the lower word written last and the upper word written last together with the upper bits of all lower writes since, all while its queue was selected |
| VirtioRuns.AddressIsLatest | source/cki_kmod/pkm_main.c:508-528 | if the values written to its lower register have 32 bits, an address is hi * 2^32 + lo of the words written last while its queue was selected |
| VirtioRuns.SizeAndReadyAreLatest | source/cki_kmod/pkm_main.c:509-531 | size and readiness of a queue come from the values written last while it was selected, after any run of writes |
| VirtioRuns.AckedGrows | source/cki_kmod/pkm_main.c:457-482 | over any run acked_features stays within avail_features and never loses a bit |
| VirtioRuns.NegotiatesExactly | source/cki_kmod/pkm_main.c:461-466 | the status bits that allow features to be acknowledged |
| VirtioRuns.AcksSelectedHalf | source/cki_kmod/pkm_main.c:457-482 | a write adds the offered features that are available to the selected half of the acknowledged ones and leaves the other half |
| VirtioRuns.AckedAfter | source/cki_kmod/pkm_main.c:457-482 | after any run each half of the acknowledged features is the old one and what was offered for it while it was selected and the status allowed it, as far as available |
| VirtioRuns.DriverOkPassedThrough | source/cki_kmod/pkm_main.c:437-455 | DRIVER_OK is set only in runs that passed through status 1, then 3, then 11 |
| VirtioRuns.Handshake | source/cki_kmod/pkm_main.c:437-455 | the writes 1, 3, 11 and 15 get through and set exactly the status 15 |
| VirtioRuns.FrozenUnlessCleared | source/cki_kmod/pkm_main.c:457-482 | once FEATURES_OK is set the acknowledged features stay, if no status write clears it |
| VirtioRuns.ThawsExactly | source/cki_kmod/pkm_main.c:437-482 | with FEATURES_OK set the driver can still change the features exactly when the status is 11 and some feature is left |
| VirtioRuns.ThawingRun | source/cki_kmod/pkm_main.c:449-482 | five concrete writes that acknowledge every feature after FEATURES_OK was set |
| VirtioRuns.ZeroIsIgnored | source/cki_kmod/pkm_main.c:442-443 | writing 0 changes nothing |
| VirtioRuns.FeaturesAreReadable | source/cki_kmod/pkm_main.c:400-410 | the two words read one after the other are all offered features, and there is no third word |
| VirtioRuns.QueueReadsBack | source/cki_kmod/pkm_main.c:412-435 | after any run the registers of size and readiness read as the maximal size and whether the value written last while the queue was selected was not 0; as 0 for a queue that does not exist |
| VirtioRuns.StatusReadsBack | source/cki_kmod/pkm_main.c:412-455 | the status register reads as the status written last, if that was accepted, else as before |
| VirtioRuns.ReadyLeavesTheLoop | source/cki_kmod/pkm_main.c:529-531 | the run loop is left exactly when the lower word is not 0, while any bit makes the queue ready |
| Pcid.SharedExactly | source/cki_kmod/pkm_main.c:894-898 | two containers share a PCID exactly when the counter went round a whole number of times between them |
| Pcid.DistinctBeforeWrap | source/cki_kmod/pkm_main.c:894-898 | before the counter wraps PCIDs are pairwise distinct and between 10 and 100 |
| Pcid.EntriesOwnTheirPcid | source/cki_kmod/pkm_main.c:577-583 | every guest entry has the PCID of its container in cr3, whatever WRITE_CR3 supplied |
| Pcid.EntriesAreSeparate | source/cki_kmod/pkm_main.c:577-583 | entries carry the same PCID exactly when they are of the same container, before the counter wraps |
| Pcid.RunDetermines | source/cki_kmod/pkm_main.c:891-906 | after any run the containers are the creations that succeeded, each with the PCID of its attempt, failed attempts counted, and each vCPU has the page table its guest supplied last, or its first one |
| Pcid.EntryHasPageTable | source/cki_kmod/pkm_main.c:577-618 | every entry is made with the page table that the last WRITE_CR3 of this vCPU supplied, or its first one, and with the PCID of its container |
| BootPageTable.Create | source/cki_kmod/pkm_main.c:140-171 | the upper directory holds the 512 gigabyte pages, the top table is the host's but for entry 0 |
| BootPageTable.IdentityMap | source/cki_kmod/pkm_main.c:159-163 | every address below 512 gigabytes is mapped to itself, present, writable, as a large page |
| BootPageTable.EntryLeadsToDirectory | source/cki_kmod/pkm_main.c:165 | the new top entry is present, writable, no large page, and leads to the directory |
| BootPageTable.WalkIsIdentity | source/cki_kmod/pkm_main.c:155-167 | the walk from the top for an address below 512 gigabytes goes through the new directory and ends at the address itself |
| BootPageTable.FreeFindsTable | source/cki_kmod/pkm_main.c:173-181 | the upper directory is found again exactly when its address has the two lowest bits clear |

## Left out

- Runs.NeverOverrun: one direction only. How far chunks can overtake each other depends on schedule and queue
  sizes; `Capacity.NeverOverrunByCapacity` gives a bound for all inputs, `WitnessRuns.OverrunHappens` a run that
  leaves the array, and `Reorder.EveryOrderFits` is exact for arbitrary arrival orders.
- Capacity.NeverOverrunByCapacity: one direction only; the room in front of the cache is counted as a whole, and
  some configurations with more room cannot fill all of it with coarse chunks that overtake each other.
- Deadlock freedom: false for two threads (`WitnessRuns.StuckHappens`), proved for one; `Progress.StuckMeans` says
  what a stuck state looks like, not which configurations with several threads can reach one.
- Equality of the serial and the parallel chunk boundaries: the coarse jump can place cuts that the serial
  scan would not, so the two writers are compared on the same list of pieces.
- Progress of every thread (fairness of the scheduler); the bound on run lengths needs none.
- The parallel pipeline is modelled on values, not as methods over shared objects, because its threads
  interleave; chunk objects are entries of a map under their sequence number, and aliasing is the table and
  `compressed_data_ref`. The loops of `Fragment`, `FragmentRefine`, `Reorder`, the serial encoder and the
  decoder are methods as well.
- Statistics printing, the parallel counters (`total_compressed` is read after the lock is released), the
  32-bit wrap-around of the unsigned counters.
- The archive header, opening files, errors of read and write, the limit SSIZE_MAX, failing allocations.
- Hash tables that receive a digest twice: this happens in the decoder on archives the encoder does not
  write; there the map keeps the last object.
- The insides of gzip, bzip2, SHA-1 and Rabin fingerprints.
- Races between vCPUs in the MMIO handlers: each access is one step. A notification for a queue without a
  kick eventfd is recorded, not followed.
- Device reset, the unwinding of a failed container creation, file, socket and ioctl plumbing, the check of
  guest memory addresses, the launcher, canneal and the scripts.
