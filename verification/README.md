# Verified model of Lacuna's host side

Lacuna carries a QEMU 0.15.1 host with its own crypto library. This project models the parts whose
correctness is hardest to see and proves what they promise, for all inputs and all interleavings.
`dafny verify dfyconfig.toml` checks everything with Dafny 4.11.

## What is modelled

- **Live RAM migration** (`RamLayout`, `RamStream`, `RamSender`, `RamReceiver`, `RamMigration`,
  `RamMigrationProof`, `RamStageThree`, `RamEndToEnd`). The sender is a class whose methods are the C
  functions, a stream of records, and a step machine in which guest writes may fall between any two
  memory accesses of the sender. The page size is a power of two above the flag bits. The main result,
  `RamEndToEnd.Migrate`, runs from guest memory through bytes to destination memory.
- **Live block migration** (`BlockMigration`, `BlockMigrationProof`, `BlockMigrationResult`,
  `BlockStageThree`, `BlockEarlyWrites`, `BlockMigrationLimits`, `BlockBulk`, `BlockDrain`,
  `BlockSaver`, `DirtyBitmap`, `BlockTracking`). Reads are asynchronous and sample sectors one at a time, bulk and dirty phases overlap,
  and guest writes mark chunks when they complete, if tracking was on when they were submitted.
- **Block layer** (`IoVectors`, `Multiwrite`, `MultiwriteExact`, `MultiwriteCompletion`, `BlockBytes`,
  `Commit`): merging of write requests, their completion counter, byte requests over sectors, and
  commit of a copy-on-write overlay.
- **AES and CBC** (`GaloisField`, `ProductCipher`, `AesCipher`, `AesWords`, `AesKeySchedule`, `AesCode`,
  `AesBlock`, `AesSbox`, `ChainingMode`, `BlockBuffers`, `AesCbc`, `AesSplit`, `AesResult`, `AesVector`,
  `AesVector128`, `AesVector192`, `AesVector256`, `AesExamples`): the table-driven code against FIPS 197 and section 6.2 of NIST SP 800-38A.
- **Bitmaps** (`Words`, `Bitmaps`): the word-wise searches and the aligned first fit against a plain
  sequence of bits.
- **Buffered output** (`BufferedFile`), **bottom halves** (`BottomHalves`, `BottomHalfPoll`, `BottomHalfLoss`) and
  **counter mode** in Lacuna's two back ends (`CtrStream`, `CtrBackends`).

`Bytes`, `Runs` and `Units` hold arithmetic on words, runs of step machines and shared constants.

## How to read the model

- A step machine is a function from a state and an event to the next state, if the event is possible
  there. `Runs.Run` folds it over a sequence of events, so "every run" is every sequence.
- Code that updates variables is a method or a class with `modifies`; each is proved against a function
  or predicate on values. Where a C function works in place, so does the method.
- The world outside is a parameter: answers of a backend, return values of driver calls, lengths of
  allocation runs, order of completions, effects of callbacks.
- The tables of AES are a pair of functions. The theorems hold for every permutation of the bytes;
  `AesSbox.Rijndael` is the pair of FIPS 197. The words of Te0 to Td3 are defined from it as the comment
  at `aes.c:60-72` says.

## Where the code does less than one might expect

- `multiwrite_merge` cuts off data: a request that ends before the end of the one it is merged into drops
  the rest of the earlier one (`MultiwriteExact.RewriteLosesData`). `MultiwriteExact.MergeExactAlways` gives
  the exact condition, and `MultiwriteExact.MergeExact` a simpler one for lists within the vector limit.
- A guest write submitted before stage 1 switches dirty tracking on is never marked, so it can reach the
  disk after its chunk has been read (`BlockMigrationLimits.EarlyWriteLosesData`).
  `BlockEarlyWrites.EarlyWritesDecide` gives the exact condition at that moment.
- `flush_blks` at the start of stage 3 stops at the rate limit, and the blocks left in the queue are freed
  unsent (`BlockMigrationLimits.CutFlushLosesData`). `BlockStageThree.CutDecides` gives the exact condition
  at the moment it stops.
- The bulk phase does not mark its reads in the in-flight bitmap, so a later read of the same chunk may
  overtake it (`BlockMigrationLimits.OvertakingLosesData`). `BlockStageThree.OvertakeDecides` gives the exact
  condition, and `BlockStageThree.StopDecides` the one for both together.
- Reads that keep failing in stage 3 keep its loop from ending (`BlockDrain.FailingReadsSpin`).
  `BlockDrain.RoundsExact` gives the exact condition, `BlockDrain.NeverEnds` the one for never ending.
- `AES_cbc_encrypt` leaves the decrypted block in `ivec` after a partial block, not the ciphertext
  (`AesResult.DifferentVectors`). `AesResult.VectorsAgree` gives the exact condition.
- `bitmap_find_next_zero_area` with `nr == 0` may skip the least index (`Bitmaps.EmptyAreaExact`).
- `bdrv_set_dirty_tracking` zeroes `dirty_count` but keeps an existing bitmap
  (`DirtyBitmap.Tracker.SetDirtyTracking`).
- `set_dirty_bitmap` marks a chunk for an empty request (`DirtyBitmap.EmptyRequestMarks`): the sector before
  the request lies in the same chunk, or C division takes -1 to 0. `DirtyBitmap.MarksExactly` gives the exact
  condition.
- `async_context_pop` can lose a bottom half that is still due: a poll that ran only idle ones returns 0, and
  what their callbacks have left is on no list any more (`BottomHalfLoss.IdleIsLost`).
  `BottomHalfLoss.PollDecides` gives the exact condition for a poll, `BottomHalfLoss.PopDecides` for the call.
- The comment of `bdrv_aio_multiwrite` lets callbacks run for some requests after an error return; the code
  runs none (`MultiwriteCompletion.Submit`).

## Model

| member | source | states |
|---|---|---|
| `RamMigrationProof.MigrationCorrect` | host/qemu-kvm-0.15.1/arch_init.c:251-336 | For every run, with guest writes anywhere between the sender's steps: the sender never reads through a null block pointer, the stream replays, and when stage 3 has ended every page of the destination equals the source page |
| `RamMigrationProof.RunInv` | host/qemu-kvm-0.15.1/arch_init.c:251-336 | Every reachable state satisfies the invariant: each page is dirty, pending in the dirty log, in the sender's hand, or equal to what the stream so far gives the receiver |
| `RamMigrationProof.StepInv` | host/qemu-kvm-0.15.1/arch_init.c:251-336 | Each step of guest, dirty log or sender keeps that invariant |
| `RamMigrationProof.GuestStep` | host/qemu-kvm-0.15.1/cpu-all.h:981-990 | A guest or device write, at any moment, leaves the page it touches dirty, logged or still to be read |
| `RamMigrationProof.SyncInv` | host/qemu-kvm-0.15.1/arch_init.c:263-266 | Moving the dirty log into the dirty flags, page by page, loses no pending write |
| `RamMigrationProof.LookInv` | host/qemu-kvm-0.15.1/arch_init.c:125-169 | One look of the ring walk keeps the invariant, including what has been passed over |
| `RamMigrationProof.CompareInv` | host/qemu-kvm-0.15.1/arch_init.c:95-108 | The word-by-word comparison of a page may be overtaken by writes without losing track of the page |
| `RamMigrationProof.ReadAgainInv` | host/qemu-kvm-0.15.1/arch_init.c:136-144 | Sending the one-byte form after a comparison that the guest may have overtaken still leaves the page dirty or delivered |
| `RamMigrationProof.CopyByteInv` | host/qemu-kvm-0.15.1/arch_init.c:145-154 | Copying a full page byte by byte under concurrent writes leaves the page dirty or delivered |
| `RamMigrationProof.MarkInv` | host/qemu-kvm-0.15.1/arch_init.c:269-295 | The stage-1 marking of all pages and the block-list header establish the invariant |
| `RamStageThree.StepWorks` | host/qemu-kvm-0.15.1/arch_init.c:321-329 | Every step possible in stage 3 strictly decreases a measure of remaining work |
| `RamStageThree.StageThreeCompletes` | host/qemu-kvm-0.15.1/arch_init.c:321-329 | From any reachable stage-3 state there is a run of the sender, given by its events and no longer than the measure, that ends the migration without changing memory |
| `RamStageThree.StageThreeBounded` | host/qemu-kvm-0.15.1/arch_init.c:321-329 | No run of stage 3, whatever the interleaving, is longer than the measure |
| `RamStageThree.CanComplete` | host/qemu-kvm-0.15.1/arch_init.c:251-336 | From every start there is a run that completes the migration |
| `RamSender.FirstDirtyIsNearest` | host/qemu-kvm-0.15.1/arch_init.c:113-175 | The ring search finds the nearest dirty page ahead of the origin, or there is none |
| `RamSender.SaveUsesOnePage` | host/qemu-kvm-0.15.1/arch_init.c:113-175 | One call sends exactly one record and clears exactly one dirty flag, or changes nothing when no page is dirty |
| `RamSender.IsDupPage` | host/qemu-kvm-0.15.1/arch_init.c:95-108 | The comparison of 32-bit words decides whether all bytes of the page are the given one |
| `RamSender.Sender.Walk` | host/qemu-kvm-0.15.1/arch_init.c:115-172 | The do/while walk over blocks and offsets stops at the first dirty page of the ring, or back at its start exactly when no page is dirty |
| `RamSender.Sender.SendPage` | host/qemu-kvm-0.15.1/arch_init.c:126-157 | One record: compressed exactly when all bytes of the page are equal, with the block's name exactly when it is not the block sent last, with the page's offset and contents; the page becomes clean |
| `RamSender.Sender.RamSaveBlock` | host/qemu-kvm-0.15.1/arch_init.c:113-175 | The call equals the specification and returns 0 exactly when no page of any block is dirty |
| `RamSender.Sender.RamSaveRemaining` | host/qemu-kvm-0.15.1/arch_init.c:179-195 | The size of the set of dirty pages |
| `RamLayout.TruthsCounts` | host/qemu-kvm-0.15.1/arch_init.c:179-195 | Counting set flags one by one gives the number of their positions |
| `RamSender.Sender.FlushRemaining` | host/qemu-kvm-0.15.1/arch_init.c:325-327 | The stage-3 loop ends with no dirty page, having sent exactly one record with the current contents for each dirty page, in some order, and nothing else, and returns the bytes of page data sent |
| `RamSender.SaveAllSends` | host/qemu-kvm-0.15.1/arch_init.c:325-327 | Calls of ram_save_block until nothing is dirty send exactly the dirty pages, each once, with its current contents and a name that resolves against the page before it |
| `RamSender.Advance` | host/qemu-kvm-0.15.1/arch_init.c:159-167 | Advancing block pointer and offset is one step on the ring of all pages |
| `RamSender.BackAtOrigin` | host/qemu-kvm-0.15.1/arch_init.c:169-169 | The address comparison that ends the walk holds exactly on the page the walk began at |
| `RamLayout.Layout.AddrInjective` | host/qemu-kvm-0.15.1/cpu-all.h:921-937 | With blocks that do not overlap, different pages have different ram addresses |
| `RamLayout.Layout.Locate` | host/qemu-kvm-0.15.1/cpu-all.h:921-937 | Position in the ring, block and page offset determine each other |
| `RamStream.WordSplits` | host/qemu-kvm-0.15.1/arch_init.c:88-93 | A page-aligned offset or-ed with flag bits splits back into both, for every page size above the flags |
| `RamStream.MasksAreRemainders` | host/qemu-kvm-0.15.1/arch_init.c:380-381 | The two masks of the receiver are remainder and rounding by the page size |
| `RamStream.WordsHold64Bits` | host/qemu-kvm-0.15.1/arch_init.c:378-378 | Stream words of eight bytes hold exactly 64 bits |
| `RamStream.EosBytes` | host/qemu-kvm-0.15.1/arch_init.c:331-331 | The bytes of an end record |
| `RamStream.CompressedBytes` | host/qemu-kvm-0.15.1/arch_init.c:136-144 | The bytes of a one-byte page record, with and without a block name |
| `RamStream.FullPageBytes` | host/qemu-kvm-0.15.1/arch_init.c:145-153 | The bytes of a full page record, with and without a block name |
| `RamStream.BlockListBytes` | host/qemu-kvm-0.15.1/arch_init.c:289-295 | The bytes of a block list: flag, total, name and length, big-endian |
| `Bytes.HasBitIsAnd` | host/qemu-kvm-0.15.1/arch_init.c:383-455 | The flag test of the model is the bitwise and of the code |
| `RamReceiver.EncodedSection` | host/qemu-kvm-0.15.1/arch_init.c:368-458 | A section as the sender writes it is one the parser reads back, record by record, to its exact end |
| `RamReceiver.EncodedRows` | host/qemu-kvm-0.15.1/arch_init.c:394-418 | A written block list reads back row by row |
| `RamReceiver.LeadingWord` | host/qemu-kvm-0.15.1/arch_init.c:378-381 | The first word of every record gives back its flags and its page offset |
| `RamReceiver.FlagTests` | host/qemu-kvm-0.15.1/arch_init.c:383-455 | The flag tests of the receiver single out exactly the kind of each record |
| `RamReceiver.Receiver.SyncBlockList` | host/qemu-kvm-0.15.1/arch_init.c:383-420 | Whatever the bytes: a list is accepted only if its rows name blocks of this machine with their lengths and add up to the total in 64 bits, and refused only at a row that does not fit; of a written list, accepted if and only if the machine has every block, and then consumed exactly |
| `RamReceiver.Receiver.HostFromStreamOffset` | host/qemu-kvm-0.15.1/arch_init.c:338-366 | A record with CONTINUE resolves to the block named last, any other to the block it names, or to none if unknown |
| `RamReceiver.Receiver.LoadPage` | host/qemu-kvm-0.15.1/arch_init.c:422-451 | A one-byte or full page record stores exactly its page, and is refused if and only if its block is unknown or the page lies outside it |
| `RamReceiver.Receiver.LoadRecord` | host/qemu-kvm-0.15.1/arch_init.c:377-455 | Reading one encoded record has the effect of the record and stops right after it, and is refused if and only if the record has no effect on this machine |
| `RamReceiver.Receiver.RamLoad` | host/qemu-kvm-0.15.1/arch_init.c:368-458 | Loading an encoded section succeeds if and only if its records replay on this machine; then the result is exactly the replay and exactly its bytes are consumed. On any other input it still ends, with a well-formed receiver |
| `RamEndToEnd.MachineRefinesCode` | host/qemu-kvm-0.15.1/arch_init.c:113-175 | One call of ram_save_block with the guest standing still is a run of the step machine |
| `RamEndToEnd.ClosedRun` | host/qemu-kvm-0.15.1/arch_init.c:251-336 | Every run of the sender writes only records that fit the stream format, in closed sections |
| `RamEndToEnd.LoadAll` | host/qemu-kvm-0.15.1/arch_init.c:368-458 | Loading section after section of an encoded stream yields the replay of all records |
| `RamEndToEnd.Migrate` | host/qemu-kvm-0.15.1/arch_init.c:251-458 | End to end over bytes: for every completed run of the sender, loading the bytes it wrote makes destination RAM equal to source RAM |
| `BlockMigrationProof.StepInv` | host/qemu-kvm-0.15.1/block-migration.c:186-493 | Each event of guest, reads in flight, queue and sender keeps: a chunk behind the bulk cursor is dirty, has a tracked write in flight, was changed by an untracked write after its newest block had read that sector, or its newest block holds the current data as far as it is read |
| `BlockMigrationProof.GuestInv` | host/qemu-kvm-0.15.1/block.c:2177-2225 | Guest writes, which mark chunks dirty only on completion and only if tracking was on when they were submitted, keep the invariant |
| `BlockMigrationProof.ReadSectorInv` | host/qemu-kvm-0.15.1/block-migration.c:252-260 | Reads pick up sectors one by one, in any interleaving with guest writes |
| `BlockMigrationProof.ReadCompleteInv` | host/qemu-kvm-0.15.1/block-migration.c:186-203 | Completion of a read moves it from flight to the queue with exact counters |
| `BlockMigrationProof.BulkInv` | host/qemu-kvm-0.15.1/block-migration.c:205-270 | A step of the bulk phase keeps the invariant |
| `BlockMigrationProof.ExamineInv` | host/qemu-kvm-0.15.1/block-migration.c:379-446 | A step of the dirty phase, synchronous or not, keeps the invariant |
| `BlockMigrationProof.SendHeadInv` | host/qemu-kvm-0.15.1/block-migration.c:463-493 | Sending the head of the queue keeps the invariant |
| `BlockMigrationProof.ScanOverInv` | host/qemu-kvm-0.15.1/block-migration.c:616-637 | The end of the sweep keeps the invariant, and in stage 3 nothing is dirty then |
| `BlockMigrationResult.RunInv` | host/qemu-kvm-0.15.1/block-migration.c:557-637 | Every reachable state satisfies the invariant; with reads in order, blocks are also sent and queued in issue order until stage 3 sends past a queue that a flush has left |
| `BlockMigrationResult.CountersExact` | host/qemu-kvm-0.15.1/block-migration.c:186-203 | In every reachable state submitted is the number of reads in flight, read_done the number queued, and both with transferred sum to the blocks issued |
| `BlockMigrationResult.NewestIsCurrent` | host/qemu-kvm-0.15.1/block-migration.c:557-637 | After the bulk phase and with no read in flight, the newest block of every clean chunk carries the current data, unless a tracked write is on its way or an untracked one was missed |
| `BlockMigrationResult.LoadLast` | host/qemu-kvm-0.15.1/block-migration.c:639-713 | Loading blocks in order leaves each chunk as its last block says, or as it was if it has none |
| `BlockMigrationResult.DeliveryDecides` | host/qemu-kvm-0.15.1/block-migration.c:557-713 | For every completed run that missed no untracked write, the source disk arrives at every destination if and only if each chunk has a delivered block and the last one delivered carries what the newest one issued carries |
| `BlockMigrationResult.MigrationCorrect` | host/qemu-kvm-0.15.1/block-migration.c:557-713 | With reads completing in issue order, an uncut flush and no untracked write missed, every completed run leaves the destination disk equal to the source disk |
| `BlockMigrationResult.AloneIsOrdered` | host/qemu-kvm-0.15.1/block-migration.c:379-446 | Reads can complete out of order only in a run where some chunk has two of them in flight |
| `BlockStageThree.StopDecides` | host/qemu-kvm-0.15.1/block-migration.c:580-622 | Whatever happened before: at the moment the flush opening stage 3 stops, the disks will agree if and only if every clean chunk has been delivered as its newest block has it |
| `BlockStageThree.CutDecides` | host/qemu-kvm-0.15.1/block-migration.c:472-474 | With reads in order: if and only if, at that moment, every chunk still queued is dirty or its last queued block carries what the destination has for it |
| `BlockStageThree.OvertakeDecides` | host/qemu-kvm-0.15.1/block-migration.c:252-260 | With the queue sent to its end: if and only if, at that moment, the block sent last for every clean chunk carries what the block issued last carries |
| `BlockStageThree.LoopSends` | host/qemu-kvm-0.15.1/block-migration.c:621-621 | Every run of the stage-3 loop sends each dirty chunk once with its current data, and nothing else |
| `BlockStageThree.StepWorks` | host/qemu-kvm-0.15.1/block-migration.c:616-622 | Every step possible in stage 3 strictly decreases a measure of remaining work |
| `BlockStageThree.StageThreeBounded` | host/qemu-kvm-0.15.1/block-migration.c:616-622 | No run of stage 3 is longer than the measure |
| `BlockStageThree.StageThreeCompletes` | host/qemu-kvm-0.15.1/block-migration.c:616-622 | From every stage-3 state there is a run to its end, no longer than the measure |
| `BlockEarlyWrites.EarlyWritesDecide` | host/qemu-kvm-0.15.1/block.c:2222-2225 | With reads in order and an uncut flush, every completed run from the start of stage 1 delivers the source disk to every destination if and only if no guest write in flight at that moment touches a migrated chunk |
| `BlockEarlyWrites.EarlyWriteLoses` | host/qemu-kvm-0.15.1/block.c:2222-2225 | For every start with such a write there is a completed run in which it reaches the disk after the bulk read, is never marked, and the disks differ for every destination |
| `BlockMigrationLimits.CutFlushLosesData` | host/qemu-kvm-0.15.1/block-migration.c:472-474 | From every start without writes in flight, a completed run whose last flush is cut at once by the rate limit and that delivers nothing |
| `BlockMigrationLimits.OvertakingLosesData` | host/qemu-kvm-0.15.1/block-migration.c:252-260 | A completed run in which a dirty read overtakes a bulk read, which the in-flight bitmap does not know, and whose disks differ for every destination |
| `BlockMigrationLimits.EarlyWriteLosesData` | host/qemu-kvm-0.15.1/block.c:2222-2225 | One chunk of one sector and one write in flight when stage 1 begins: a completed run whose disks differ for every destination |
| `BlockSaver.SendableExact` | host/qemu-kvm-0.15.1/block-migration.c:463-493 | How many blocks a flush may send: up to the limit, all with good reads, and stopped early only by a failed one |
| `BlockSaver.Saver.FlushBlks` | host/qemu-kvm-0.15.1/block-migration.c:463-493 | Sends exactly the sendable prefix of the queue, in order, keeps the counter sum, and raises the file error exactly at a failed read |
| `BlockSaver.FlushLeads` | host/qemu-kvm-0.15.1/block-migration.c:463-493 | Undisturbed, the machine can send any prefix of the queue with the counters of the code |
| `BlockSaver.Saver.MigSaveDeviceDirty` | host/qemu-kvm-0.15.1/block-migration.c:379-446 | With synchronous reads: stops at the first dirty chunk from the cursor on, sends it with its current data or raises the file error and leaves it, and otherwise ends past the last chunk |
| `BlockSaver.Saver.SaveDirtyBlock` | host/qemu-kvm-0.15.1/block-migration.c:448-461 | The first device with a dirty chunk tries to send one, exactly as the function says |
| `BlockSaver.Saver.Drain` | host/qemu-kvm-0.15.1/block-migration.c:621-621 | The stage-3 loop ends with nothing dirty, having sent each dirty chunk exactly once with its current data and nothing else, however many reads failed on the way |
| `BlockDrain.SaveTries` | host/qemu-kvm-0.15.1/block-migration.c:448-461 | One call tries to send one dirty chunk if and only if there is one |
| `BlockDrain.DrainSends` | host/qemu-kvm-0.15.1/block-migration.c:621-621 | What the loop sends, and that the file error is raised exactly when a read failed |
| `BlockDrain.RoundsExact` | host/qemu-kvm-0.15.1/block-migration.c:621-621 | The loop is still going after n rounds if and only if n is 0 or fewer reads than there were dirty chunks succeeded in the first n - 1, for every sequence of read results |
| `BlockDrain.FailingReadsSpin` | host/qemu-kvm-0.15.1/block-migration.c:421-446 | As long as every read fails, the loop goes on, nothing is sent and nothing is reset; only the error and the scan position change |
| `BlockDrain.NeverEnds` | host/qemu-kvm-0.15.1/block-migration.c:621-621 | For every endless sequence of read results, stage 3 never ends if and only if at every point fewer reads have succeeded than chunks were dirty |
| `BlockDrain.RoundsDrain` | host/qemu-kvm-0.15.1/block-migration.c:621-621 | Where the rounds end, the loop ends, with the same result |
| `BlockDrain.DrainLeads` | host/qemu-kvm-0.15.1/block-migration.c:616-622 | Undisturbed, the machine's stage-3 loop is the loop of the code: same blocks in the same order, same cursors, what is queued is dropped |
| `BlockBulk.LeftAre` | host/qemu-kvm-0.15.1/block-migration.c:332-352 | The list of chunks still to be issued holds every chunk not issued yet, once, device by device and chunk by chunk, and nothing else |
| `BlockBulk.BulkIssues` | host/qemu-kvm-0.15.1/block-migration.c:205-262 | Round n of the bulk phase issues chunk n of that list, with its own number and size, and resets its dirty bit; one round after the last chunk the phase is over |
| `BlockBulk.TriedExact` | host/qemu-kvm-0.15.1/block-migration.c:252-270 | Reads that cannot be issued only cost rounds: the state is that of the other rounds alone, and the phase is over after n rounds if and only if enough of the first n - 1 could issue |
| `BlockBulk.BulkLeads` | host/qemu-kvm-0.15.1/block-migration.c:591-606 | The machine runs the bulk phase, any number of rounds of it |
| `BlockBulk.BulkSaver.MigSaveDeviceBulk` | host/qemu-kvm-0.15.1/block-migration.c:205-270 | Issues the device's next chunk, in sectors, as the machine does in chunks, and returns whether the device is through; a refused read raises the file error and leaves all else |
| `BlockBulk.BulkSaver.SaveBulkedBlock` | host/qemu-kvm-0.15.1/block-migration.c:332-371 | The first device that is not through issues one chunk, as the machine's bulk step does; false exactly when no chunk is left |
| `BlockBulk.BulkSaver.BulkPhase` | host/qemu-kvm-0.15.1/block-migration.c:591-606 | The loop makes exactly the rounds before which the reads in flight and in line are below the rate limit and the phase is not over, and none if the limit is already reached |
| `DirtyBitmap.MarkedChunks` | host/qemu-kvm-0.15.1/block.c:943-952 | A non-empty request marks exactly the chunks that hold one of its sectors |
| `DirtyBitmap.MarksExactly` | host/qemu-kvm-0.15.1/block.c:943-952 | A request marks exactly the chunks that hold one of its sectors if and only if it is not empty or starts at the first sector of a chunk other than the first |
| `DirtyBitmap.EmptyRequest` | host/qemu-kvm-0.15.1/block.c:949-950 | An empty request marks its own chunk, unless it starts at the first sector of a chunk other than the first, and no other |
| `DirtyBitmap.EmptyRequestMarks` | host/qemu-kvm-0.15.1/block.c:949-950 | An input: no sectors from sector 1 on mark chunk 0 |
| `DirtyBitmap.ChunkEdge` | host/qemu-kvm-0.15.1/block.c:949-950 | Sector 2047 is in chunk 0 and sector 2048 in chunk 1 |
| `DirtyBitmap.CountPut` | host/qemu-kvm-0.15.1/block.c:953-967 | Changing one bit changes the number of set bits by one or not at all |
| `DirtyBitmap.CountIsSize` | host/qemu-kvm-0.15.1/block.c:953-967 | The number that dirty_count is kept equal to is the size of the set of dirty chunks |
| `DirtyBitmap.Tracker.SetDirtyBitmap` | host/qemu-kvm-0.15.1/block.c:943-969 | Exactly the chunks from first to last of the request change, and dirty_count stays the number of set bits |
| `DirtyBitmap.Tracker.GetDirty` | host/qemu-kvm-0.15.1/block.c:2869-2880 | True exactly for sectors of the device in a marked chunk of a tracked device |
| `DirtyBitmap.Tracker.SetDirtyTracking` | host/qemu-kvm-0.15.1/block.c:2848-2867 | dirty_count is exact afterwards if and only if tracking was off, is turned off, or no chunk was marked |
| `BlockTracking.SetDirty` | host/qemu-kvm-0.15.1/block.c:2177-2186 | As a set of chunks, the bitmap gains exactly the chunks of the request |
| `BlockTracking.ResetDirty` | host/qemu-kvm-0.15.1/block.c:2882-2886 | As a set of chunks, the bitmap loses exactly the chunks of the request |
| `BlockTracking.ResetIsClean` | host/qemu-kvm-0.15.1/block-migration.c:259-259 | What the migration resets for a block is the one chunk that the machine's step removes |
| `BlockTracking.RequestInDevice` | host/qemu-kvm-0.15.1/block.c:943-952 | A request inside a device concerns chunks of that device only, so the machine's write event can take it |
| `BlockTracking.AgreesPainted` | host/qemu-kvm-0.15.1/block.c:943-969 | If the bitmaps of all devices show the machine's dirty chunks, they still do after a request is set or reset in one of them and the same is done to the set |
| `BlockTracking.FinishAgrees` | host/qemu-kvm-0.15.1/block.c:2177-2186 | The completion of a tracked write keeps bitmaps and machine in agreement |
| `BlockTracking.CleanAgrees` | host/qemu-kvm-0.15.1/block-migration.c:431-431 | Issuing a block keeps bitmaps and machine in agreement |
| `BlockTracking.WriteMarks` | host/qemu-kvm-0.15.1/block.c:988-996 | Sector by sector, a tracked write marks exactly the chunks that the bitmap gets for the whole request |
| `BlockTracking.WriteAgrees` | host/qemu-kvm-0.15.1/block.c:977-997 | The machine can run a guest's write of a whole request, and then agrees with the bitmaps after set_dirty_bitmap |
| `BlockTracking.AskedRight` | host/qemu-kvm-0.15.1/block.c:2869-2880 | bdrv_get_dirty asks whether the machine has the chunk dirty |
| `Words.Ffsl` | host/qemu-kvm-0.15.1/bitops.h:31-61 | The binary search returns the lowest set bit of a non-zero word |
| `Words.Flsl` | host/qemu-kvm-0.15.1/bitops.h:69-99 | The binary search returns the highest set bit of a non-zero word |
| `Words.Ffz` | host/qemu-kvm-0.15.1/bitops.h:107-110 | The lowest clear bit of a word that is not all ones |
| `Bitmaps.ScanResult` | host/qemu-kvm-0.15.1/bitops.c:21-113 | The linear scan stops at the first bit of the wanted value, or at the size |
| `Bitmaps.ScanFinds` | host/qemu-kvm-0.15.1/bitops.c:21-113 | Any index with that property is what the scan returns |
| `Bitmaps.FindNextBit` | host/qemu-kvm-0.15.1/bitops.c:21-64 | The word-wise search equals the linear scan for every size and offset |
| `Bitmaps.FindNextZeroBit` | host/qemu-kvm-0.15.1/bitops.c:70-113 | The word-wise search for a clear bit equals the linear scan for every size and offset |
| `Bitmaps.FindLastBit` | host/qemu-kvm-0.15.1/bitops.c:115-142 | The word-wise search from the end equals the linear scan downwards |
| `Bitmaps.BitmapSet` | host/qemu-kvm-0.15.1/bitmap.c:160-178 | Exactly the bits start to start + nr - 1 become set |
| `Bitmaps.BitmapClear` | host/qemu-kvm-0.15.1/bitmap.c:180-198 | Exactly the bits start to start + nr - 1 become clear |
| `Bitmaps.AlignUpIsLeast` | host/qemu-kvm-0.15.1/bitmap.c:214-237 | Aligning gives the least multiple that is not below |
| `Bitmaps.AlignUpIsMask` | host/qemu-kvm-0.15.1/bitmap.c:225-225 | For powers of two the mask arithmetic on 64-bit words is that alignment |
| `Bitmaps.FindNextZeroArea` | host/qemu-kvm-0.15.1/bitmap.c:214-237 | Returns the least aligned index from start on with nr clear bits inside size, or a value above size exactly when there is none |
| `Bitmaps.EmptyAreaExact` | host/qemu-kvm-0.15.1/bitmap.c:214-237 | For nr = 0 the least aligned index is returned if and only if the first clear bit from start on is at or below it |
| `Bitmaps.EmptyAreaSkips` | host/qemu-kvm-0.15.1/bitmap.c:214-237 | An input with nr = 0 for which the result is not the least index |
| `IoVectors.PartBytes` | host/qemu-kvm-0.15.1/cutils.c:178-214 | Copying a part of a scatter-gather list yields exactly the bytes after skip, up to size, in no more buffers |
| `IoVectors.IovecCopy` | host/qemu-kvm-0.15.1/cutils.c:178-209 | The loop appends exactly that part, buffer by buffer |
| `Multiwrite.JoinExtent` | host/qemu-kvm-0.15.1/block.c:2350-2366 | A merged request runs from the start of the first to the end of the second |
| `Multiwrite.JoinByte` | host/qemu-kvm-0.15.1/block.c:2348-2363 | Byte by byte, the merged request writes the second where it reaches and the first before it |
| `Multiwrite.MergedShape` | host/qemu-kvm-0.15.1/block.c:2309-2378 | Merging keeps the requests sorted and their data complete, never adds a request, and keeps every list within IOV_MAX |
| `Multiwrite.PairMerges` | host/qemu-kvm-0.15.1/block.c:2327-2371 | Two requests are merged if and only if they touch or overlap and their vectors have fewer than 1024 elements together; two that touch become one with the data of both |
| `Multiwrite.AddValue` | host/qemu-kvm-0.15.1/block.c:2320-2375 | One merge step writes what the two requests in order write, except past the end of the second |
| `Multiwrite.MergePreserves` | host/qemu-kvm-0.15.1/block.c:2309-2378 | If no merged request ends before the one it is merged into, writing the merged requests gives the same disk as writing the sorted ones, for every byte and every previous contents |
| `MultiwriteExact.MergeExact` | host/qemu-kvm-0.15.1/block.c:2309-2378 | For lists that the vector limit cannot split: merging preserves meaning if and only if, in every group of touching requests, the last reaches as far as any other |
| `MultiwriteExact.MergeExactAlways` | host/qemu-kvm-0.15.1/block.c:2309-2378 | For every list: merging preserves meaning if and only if every byte that a merge cuts off is written again by a later request or was written with the same value by an earlier group |
| `MultiwriteExact.RewriteLosesData` | host/qemu-kvm-0.15.1/block.c:2348-2363 | Three sectors followed by a rewrite of the middle one: merging drops the third sector |
| `MultiwriteExact.AgreeOutside` | host/qemu-kvm-0.15.1/block.c:2309-2378 | Outside the cut-off end of the last group the merged requests write what the sorted ones do |
| `MultiwriteExact.LostInClosed` | host/qemu-kvm-0.15.1/block.c:2309-2378 | A group that a gap ends too early has lost a byte that no other request writes |
| `MultiwriteCompletion.MergePair` | host/qemu-kvm-0.15.1/block.c:2343-2366 | The list built for a merged pair is the specified one |
| `MultiwriteCompletion.MergeInPlace` | host/qemu-kvm-0.15.1/block.c:2319-2378 | The loop leaves the merged requests at the front of the array |
| `MultiwriteCompletion.Counter.Complete` | host/qemu-kvm-0.15.1/block.c:2271-2286 | The counter stays the number of outstanding requests; the callbacks run when it reaches zero, with the first error seen |
| `MultiwriteCompletion.Counter.UserCallbacks` | host/qemu-kvm-0.15.1/block.c:2257-2269 | Callback i is the i-th called, once, with the error |
| `MultiwriteCompletion.Submit` | host/qemu-kvm-0.15.1/block.c:2446-2480 | For every pattern of accepted and refused submissions and of completions in between: failure of the first submission runs no callback and marks every request, a later one counts as -EIO, and what is outstanding is left to the counter |
| `MultiwriteCompletion.Counter.Finish` | host/qemu-kvm-0.15.1/block.c:2271-2286 | Once the outstanding requests complete, in any order, callback i of the original requests has run i-th, exactly once, with the first negative return value of the whole run, 0 if there is none |
| `MultiwriteCompletion.AioMultiwrite` | host/qemu-kvm-0.15.1/block.c:2394-2480 | The whole call: no medium marks all requests, no requests is success, otherwise exactly the merged requests are submitted in order up to the first refusal |
| `MultiwriteCompletion.FirstErrorUnique` | host/qemu-kvm-0.15.1/block.c:2273-2279 | The first negative return value, by its position, is unique, and 0 if and only if none is negative |
| `MultiwriteCompletion.NoneForgotten` | host/qemu-kvm-0.15.1/block.c:2446-2480 | Every accepted request is outstanding or has returned once, and a refused one counts as returned |
| `MultiwriteCompletion.WholeCall` | host/qemu-kvm-0.15.1/block.c:2257-2480 | From submission to the last completion: every callback once, with error 0 if and only if no submission was refused and no completion failed |
| `BlockBytes.Device.Read` | host/qemu-kvm-0.15.1/block.c:930-941 | A successful read returns exactly the sectors, and on a healthy device fails only outside the device |
| `BlockBytes.Device.Write` | host/qemu-kvm-0.15.1/block.c:977-997 | A successful write changes exactly the sectors; a failed one changes nothing outside them |
| `BlockBytes.Device.PRead` | host/qemu-kvm-0.15.1/block.c:999-1042 | Returns exactly the bytes asked for at every alignment, and on a healthy device fails only for bytes that are not there |
| `BlockBytes.Device.PWrite` | host/qemu-kvm-0.15.1/block.c:1044-1091 | Changes exactly the bytes asked for at every alignment; an error leaves all other sectors as they were; on a healthy device it fails only for bytes that are not there |
| `BlockBytes.WriteThenRead` | host/qemu-kvm-0.15.1/block.c:999-1091 | Reading what was just written gives it back |
| `BlockBytes.SpliceSector` | host/qemu-kvm-0.15.1/block.c:1058-1064 | Reading a sector, patching it and writing it back changes exactly the patched bytes |
| `BlockBytes.Split` | host/qemu-kvm-0.15.1/block.c:1052-1073 | Head, whole sectors and tail of a request meet on sector boundaries and cover it |
| `Commit.HiddenChange` | host/qemu-kvm-0.15.1/block.c:818-832 | Writing the backing image under allocated sectors does not change what the guest sees |
| `Commit.FreeCommitted` | host/qemu-kvm-0.15.1/block.c:834-837 | Freeing sectors that the backing image holds does not change what the guest sees |
| `Commit.Image.CopyDown` | host/qemu-kvm-0.15.1/block.c:818-832 | The guest sees the same disk after every step and on every error exit; on success the backing image alone holds it. If no driver call fails, it succeeds if and only if every allocated sector lies inside the backing image |
| `Commit.Image.Run` | host/qemu-kvm-0.15.1/block.c:818-849 | The same through emptying the overlay, also when that fails half way; on success nothing is allocated; if no driver call fails, success if and only if every allocated sector lies inside the backing image |
| `AesSbox.SboxIsFips` | host/qemu-kvm-0.15.1/aes.c:339-404 | The S-box in the tables is the inverse in GF(2^8) followed by the affine map of section 5.1.1 of FIPS 197 |
| `AesSbox.SiUndoesS` | host/qemu-kvm-0.15.1/aes.c:670-735 | The inverse table undoes the S-box |
| `AesSbox.SUndoesSi` | host/qemu-kvm-0.15.1/aes.c:670-735 | The S-box undoes the inverse table |
| `AesSbox.Rijndael` | host/qemu-kvm-0.15.1/aes.c:339-735 | The two tables form a valid pair |
| `AesVector.NextRoundKey` | host/qemu-kvm-0.15.1/aes.c:745-840 | For keys of four, six and eight words, each round key follows from the two before it |
| `AesVector128.KnownAnswer` | host/qemu-kvm-0.15.1/aes.c:745-1088 | The key expansion and the rounds give the ciphertext of the AES-128 example in appendix C.1 of FIPS 197 |
| `AesVector192.KnownAnswer` | host/qemu-kvm-0.15.1/aes.c:745-1088 | The same for the AES-192 example in appendix C.2 |
| `AesVector256.KnownAnswer` | host/qemu-kvm-0.15.1/aes.c:745-1088 | The same for the AES-256 example in appendix C.3 |
| `AesExamples.EncryptExample` | host/qemu-kvm-0.15.1/aes.c:745-1088 | The code, from user key to output buffer, gives these ciphertexts for all three key sizes |
| `GaloisField.Mul2IsXtime` | host/qemu-kvm-0.15.1/aes.c:60-72 | The branch-free doubling is xtime of section 4.2.1 of FIPS 197 |
| `GaloisField.InvMixUndoesMix` | host/qemu-kvm-0.15.1/aes.c:60-72 | The coefficients of the decryption tables invert those of the encryption tables |
| `GaloisField.MixUndoesInvMix` | host/qemu-kvm-0.15.1/aes.c:60-72 | And the other way round |
| `AesCipher.AesLaws` | host/qemu-kvm-0.15.1/aes.c:994-1084 | The layers of AES have their inverses and InvMixColumns is linear |
| `AesWords.EncColumnMixes` | host/qemu-kvm-0.15.1/aes.c:996-1019 | Four table lookups added to a key word are SubBytes, ShiftRows, MixColumns and AddRoundKey for one column |
| `AesWords.DecColumnMixes` | host/qemu-kvm-0.15.1/aes.c:1187-1210 | The same for the inverse layers |
| `AesWords.JoinBytes` | host/qemu-kvm-0.15.1/aes.c:1053-1082 | Masking and adding table words puts the substituted bytes side by side |
| `AesWords.UnpackPack` | host/qemu-kvm-0.15.1/aes.c:57-58 | PUTU32 undoes GETU32 |
| `AesBlock.EncryptorRefines` | host/qemu-kvm-0.15.1/aes.c:994-1084 | The steps of AES_encrypt compute the layers of the cipher on packed states |
| `AesBlock.DecryptorRefines` | host/qemu-kvm-0.15.1/aes.c:1185-1275 | The steps of AES_decrypt compute the inverse layers on packed states |
| `AesBlock.TablesImplementAes` | host/qemu-kvm-0.15.1/aes.c:60-72 | The tables of any S-box pair implement the AES layers |
| `ProductCipher.Engine.Crypt` | host/qemu-kvm-0.15.1/aes.c:994-1049 | The loop of two rounds an iteration, left in the middle, performs exactly Nr - 1 full rounds and the last one, for every even Nr |
| `ProductCipher.Layers.InvCipherUndoes` | host/qemu-kvm-0.15.1/aes.c:1185-1275 | The inverse cipher of section 5.3 of FIPS 197 undoes the cipher for every number of rounds and all keys |
| `ProductCipher.Layers.CipherUndoes` | host/qemu-kvm-0.15.1/aes.c:994-1084 | The cipher undoes the inverse cipher |
| `ProductCipher.Layers.EquivalentInverse` | host/qemu-kvm-0.15.1/aes.c:1185-1275 | With reversed and mixed keys the equivalent inverse cipher of section 5.3.5 is the inverse cipher |
| `AesKeySchedule.RconPacked` | host/qemu-kvm-0.15.1/aes.c:736-740 | The table of round constants holds the powers of two in GF(2^8) |
| `AesKeySchedule.FirstWordExpands` | host/qemu-kvm-0.15.1/aes.c:772-778 | The masked lookups are RotWord, SubWord and the round constant of section 5.2 of FIPS 197 |
| `AesKeySchedule.MiddleWordExpands` | host/qemu-kvm-0.15.1/aes.c:827-832 | The extra SubWord of 256-bit keys |
| `AesCode.Key.Expand128` | host/qemu-kvm-0.15.1/aes.c:770-787 | The loop fills all 44 words of the schedule |
| `AesCode.Key.Expand192` | host/qemu-kvm-0.15.1/aes.c:790-809 | The loop fills all 52 words of the schedule, stopping in mid-period |
| `AesCode.Key.Expand256` | host/qemu-kvm-0.15.1/aes.c:812-839 | The loop fills all 60 words of the schedule, stopping in mid-period |
| `AesCode.Key.SetEncryptKey` | host/qemu-kvm-0.15.1/aes.c:745-841 | Error codes leave the key alone; otherwise as many rounds as the key has 32-bit words, plus 6, and exactly the schedule of section 5.2 of FIPS 197 |
| `AesCode.InvertOrder` | host/qemu-kvm-0.15.1/aes.c:861-866 | The swap loop inverts the order of the round keys |
| `AesCode.MapInnerKeys` | host/qemu-kvm-0.15.1/aes.c:868-890 | The second loop transforms all round keys but the first and the last |
| `AesCode.InvMixWordMixes` | host/qemu-kvm-0.15.1/aes.c:870-874 | Td after Te4 is InvMixColumns on a word |
| `AesCode.Key.SetDecryptKey` | host/qemu-kvm-0.15.1/aes.c:846-892 | The same number of rounds, and the keys of the equivalent inverse cipher for the same user key |
| `AesBlock.Encrypt` | host/qemu-kvm-0.15.1/aes.c:899-1084 | Writes the cipher of the block and nothing else, also when input and output overlap |
| `AesBlock.Decrypt` | host/qemu-kvm-0.15.1/aes.c:1090-1275 | Writes the equivalent inverse cipher of the block and nothing else, also when input and output overlap |
| `AesResult.CiphersInvert` | host/qemu-kvm-0.15.1/aes.c:899-1275 | AES_decrypt's function with the decryption schedule and AES_encrypt's with the encryption schedule undo each other, both ways |
| `AesResult.KeysInvert` | host/qemu-kvm-0.15.1/aes.c:745-892 | The two schedules of one user key make a pair of inverse block functions |
| `ChainingMode.Mode.RoundTrip` | host/qemu-kvm-0.15.1/aes.c:1279-1328 | CBC decryption restores every block and both directions leave the same vector for whole blocks |
| `ChainingMode.Mode.EncryptEquation` | host/qemu-kvm-0.15.1/aes.c:1291-1299 | Each ciphertext block is the cipher of the plaintext block added to the one before, the first to the starting vector; the last is the vector left |
| `ChainingMode.Mode.DecryptEquation` | host/qemu-kvm-0.15.1/aes.c:1310-1319 | Each plaintext block is the deciphered block added to the ciphertext before |
| `ChainingMode.Mode.EncryptSplit` | host/qemu-kvm-0.15.1/aes.c:1291-1299 | One encryption call equals any two consecutive ones at a block boundary |
| `ChainingMode.Mode.DecryptSplit` | host/qemu-kvm-0.15.1/aes.c:1310-1319 | One decryption call equals any two consecutive ones at a block boundary |
| `AesSplit.EncryptInTwo` | host/qemu-kvm-0.15.1/aes.c:1290-1308 | Encrypting a buffer in one call, or whole blocks first and the rest with the vector that leaves: same bytes and same last vector |
| `AesSplit.DecryptInTwo` | host/qemu-kvm-0.15.1/aes.c:1309-1327 | The same for decryption, also with a partial block at the end |
| `AesSplit.BlocksSplit` | host/qemu-kvm-0.15.1/aes.c:1291-1308 | The blocks of a buffer are those of its parts when the first part is whole blocks |
| `AesCbc.CbcEncrypt` | host/qemu-kvm-0.15.1/aes.c:1290-1308 | Output is the chained ciphertext of the zero-filled input, ivec its last block, and nothing beyond is written; in place or not |
| `AesCbc.CbcDecrypt` | host/qemu-kvm-0.15.1/aes.c:1309-1327 | Exactly length bytes of chained plaintext are written; after a partial block ivec is the decrypted block; in place or not |
| `AesResult.CbcRestores` | host/qemu-kvm-0.15.1/aes.c:1279-1328 | Decryption with the same starting vector restores every byte of a buffer of any length |
| `AesResult.VectorsAgree` | host/qemu-kvm-0.15.1/aes.c:1279-1328 | The two directions leave equal vectors for whole blocks, and after a partial block if and only if the cipher maps its last input to itself |
| `AesResult.VectorsDiffer` | host/qemu-kvm-0.15.1/aes.c:1300-1326 | For one byte and a starting vector that the cipher does not map to itself, the two directions leave different vectors |
| `AesResult.MovedVectors` | host/qemu-kvm-0.15.1/aes.c:745-1328 | The code does so, for every key and starting vector such that the cipher moves the vector |
| `AesResult.DifferentVectors` | host/qemu-kvm-0.15.1/aes.c:339-1328 | An input: the key and block of appendix C.1 of FIPS 197 and one byte |
| `AesResult.CbcInPlace` | host/qemu-kvm-0.15.1/aes.c:745-1328 | Setting both keys, encrypting in place and decrypting in place restores the buffer, for every key size, length and vector |
| `AesResult.AesCbcInPlace` | host/qemu-kvm-0.15.1/aes.c:339-1328 | The same with the S-box of AES |
| `BufferedFile.Output.Flush` | host/qemu-kvm-0.15.1/buffered_file.c:72-107 | Moves bytes from the front of the buffer to the backend in order; afterwards the buffer is empty, output is frozen, or there is an error, and an error comes only from an answer of at most 0 that does not ask to be called again |
| `BufferedFile.Output.PutBuffer` | host/qemu-kvm-0.15.1/buffered_file.c:109-167 | Without an error, delivered bytes followed by the buffer are all bytes accepted, in order, whatever the backend answers; bytes stay in the buffer only if output is frozen or the rate limit is passed, and above the limit no new byte is delivered |
| `BufferedFile.Output.PutDirect` | host/qemu-kvm-0.15.1/buffered_file.c:127-153 | Data is handed over only while the count is within the rate limit, until the backend balks; an error exactly if an answer was one |
| `BufferedFile.Output.RateTick` | host/qemu-kvm-0.15.1/buffered_file.c:231-251 | A tick keeps that, delivers nothing while output is frozen, and after an error closes the stream without touching its bytes |
| `BufferedFile.Output.Close` | host/qemu-kvm-0.15.1/buffered_file.c:169-190 | Without an error the backend has every byte accepted, in order; after an error nothing more is delivered |
| `BufferedFile.WholeRun` | host/qemu-kvm-0.15.1/buffered_file.c:48-190 | Any puts and ticks, any answers of the backend, then a close: without an error the backend has exactly what was put, and there is an error if and only if one of the answers given was one |
| `BottomHalves.NewAllowed` | host/qemu-kvm-0.15.1/async.c:127-136 | Making a bottom half only adds it in front of the current context's list |
| `BottomHalves.ScheduleAllowed` | host/qemu-kvm-0.15.1/async.c:169-185 | Scheduling sets the flag, and the idle flag unless it was set before, and changes nothing else |
| `BottomHalves.CancelAllowed` | host/qemu-kvm-0.15.1/async.c:187-190 | Cancelling clears the scheduled flag and changes nothing else |
| `BottomHalves.DeleteAllowed` | host/qemu-kvm-0.15.1/async.c:192-196 | Deleting clears the scheduled flag and sets the deleted one, and does not unlink |
| `BottomHalves.NestedAllowed` | host/qemu-kvm-0.15.1/async.c:65-105 | Entering a context, anything done there, and leaving it add at most bottom halves in front of the outer list |
| `BottomHalves.AllowedTrans` | host/qemu-kvm-0.15.1/async.c:127-196 | So does any sequence of these |
| `BottomHalfPoll.Scheduler.Walk` | host/qemu-kvm-0.15.1/async.c:138-152 | Whatever callbacks do, the walk reaches every bottom half of the list it started with, in order and while live, runs those due when reached, and returns whether one was not idle |
| `BottomHalfPoll.RunsOnce` | host/qemu-kvm-0.15.1/async.c:138-152 | Each runs at most once |
| `BottomHalfPoll.SweepList` | host/qemu-kvm-0.15.1/async.c:154-164 | The removal loop drops exactly the deleted ones and keeps the order of the rest |
| `BottomHalfPoll.Scheduler.Poll` | host/qemu-kvm-0.15.1/async.c:138-167 | Only bottom halves made in the current context run, each at most once; afterwards its list has lost exactly the deleted ones and outer contexts are as they were |
| `BottomHalfPoll.PollKeeps` | host/qemu-kvm-0.15.1/async.c:138-167 | Whatever callbacks do, a poll leaves a valid state, the same contexts and the outer ones as they were |
| `BottomHalfPoll.FlushKeeps` | host/qemu-kvm-0.15.1/async.c:90-91 | So does the whole flush |
| `BottomHalfPoll.Scheduler.AsyncContextPop` | host/qemu-kvm-0.15.1/async.c:85-105 | The flush is a run of polls of which only the last returns 0; when it ends, the outer contexts are as they were but for the new bottom half in front, and otherwise it is still polling |
| `BottomHalfLoss.QuietPoll` | host/qemu-kvm-0.15.1/async.c:138-167 | With nothing due a poll runs nothing, returns 0 and leaves nothing due |
| `BottomHalfLoss.QuietCallbacks` | host/qemu-kvm-0.15.1/async.c:138-167 | If callbacks do nothing, a poll runs all that is due and leaves nothing due, and returns 1 if and only if something not idle was due |
| `BottomHalfLoss.PollDecides` | host/qemu-kvm-0.15.1/async.c:138-167 | Callbacks can make a poll return 0 and leave a bottom half due if and only if the first one due in list order is idle |
| `BottomHalfLoss.FlushDecides` | host/qemu-kvm-0.15.1/async.c:90-91 | Callbacks can make the flush end with a bottom half due if and only if something is due when it begins |
| `BottomHalfLoss.PopDecides` | host/qemu-kvm-0.15.1/async.c:85-105 | Callbacks can make async_context_pop lose a bottom half that is due, against its comment, if and only if one is due at the call |
| `BottomHalfLoss.PopLoses` | host/qemu-kvm-0.15.1/async.c:93-95 | What is on the list when the context is left belongs to a context that is gone |
| `BottomHalfLoss.GoneStays` | host/qemu-kvm-0.15.1/async.c:85-105 | A bottom half of such a context is on no list, and no callback, push or pop puts it on one |
| `BottomHalfLoss.IdleIsLost` | host/qemu-kvm-0.15.1/async.c:90-95 | An input: one idle bottom half in the inner of two contexts, which schedules itself again, is lost |
| `CtrStream.Cipher.CallsInvert` | crypto/libprivcrypt/priv_crypt.c:225-236 | A peer that starts at the same counter and makes the same calls recovers every message and stays in step |
| `CtrStream.Cipher.MaskAt` | crypto/libprivcrypt/aesni.c:101-126 | Byte i of a call is added to byte i mod 16 of the cipher of the counter block stepped i / 16 times (section 6.5 of NIST SP 800-38A) |
| `CtrStream.AdvanceIs` | crypto/libprivcrypt/aesni.c:101-126 | Stepping the counter block n times adds n modulo 2^128 |
| `CtrBackends.Aesni.Crypt` | crypto/libprivcrypt/aesni.c:101-126 | Masks exactly len bytes with the key stream of section 6.5 of NIST SP 800-38A and advances the counter by the blocks used, rounded up |
| `CtrBackends.Gcrypt.Crypt` | crypto/libprivcrypt/gcrypt.c:145-176 | The same, by using up what is left of the last block |
| `CtrBackends.Gcrypt.DoCrypt` | crypto/libprivcrypt/gcrypt.c:124-143 | libgcrypt's byte stream: unused key stream carries over to the next call |
| `CtrBackends.HandleEnd` | crypto/libprivcrypt/gcrypt.c:155-170 | After the extra call the handle is at the counter after the last block, with nothing left over |
| `CtrBackends.Agree` | crypto/libprivcrypt/gcrypt.c:124-176 | For every sequence of calls the two back ends return the same bytes and end at the same counter |

## Left out

- Version 3 RAM streams, and the section headers that savevm.c puts around the sections.
- `sort_ram_list` and `qsort`: any sorted order of blocks or requests is covered, how it is reached is not.
- Bandwidth and downtime estimates in floating point: the decision to enter stage 3 is free.
- The byte format of the block-migration stream: blocks are sent and loaded as values, in order.
- Shared-base block migration, progress reports, and reads that fail in the block-migration machine
  (`BlockSaver`, `BlockDrain` and `BlockBulk` have them in the queue, in stage 3 and in the bulk phase).
- Driver hooks that merge requests across a gap and fill it with zeroes.
- Devices that grow, and reopening the backing image read-write or read-only around a commit.
- The AES-NI assembly, libgcrypt and PolarSSL: the first two appear through what they do to a key stream.
- The unrolled AES rounds and the null checks of the key pointer: the schedule is the receiver of the call.
- `do_kex` and `polarssl_process_msg`: at most two messages, no property that the code does not show.
- Callbacks that re-enter `qemu_bh_poll` in the same context, and termination of the flush in
  `async_context_pop`, which callbacks can prevent.
- The put_ready notification of the buffered file, its timer and its rate setting.
- The small word-wise predicates `slow_bitmap_*`: easy beside the searches.
- Widths of `int` and `size_t` where they do not wrap: sizes are natural numbers; stream words, masks and
  counters that do wrap are modelled at their width.
- RamReceiver.Receiver.RamLoad: a full page for an unknown block is an error here, where the code would write through a null pointer.
- BlockSaver.Saver.MigSaveDeviceDirty: the asynchronous branch is a step of the machine (`BlockMigration.Reissue`), not of this method.
- BlockSaver.Saver.Drain: finitely many reads fail, because otherwise the loop may not end; `BlockDrain.RoundsExact` and `BlockDrain.NeverEnds` say when.
- BlockBulk.BulkSaver.BulkPhase: finitely many reads are refused, for the same reason; `BlockBulk.TriedExact` says when the phase is over.
- BufferedFile.Output.Close: a backend that asks to be called again for ever is outside the model, because the loop then does not end.
- BottomHalfPoll.Scheduler.AsyncContextPop: the flush loop is followed for a given number of polls, because callbacks can keep it from ending.
- BottomHalfPoll.Scheduler.Callback: a callback is any change of state it is allowed to make, not a particular function.
