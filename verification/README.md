# A verified model of the teaching operating system

The system is four programs that talk over sockets: a kernel that schedules processes, a CPU
that runs them, a server for segmented memory and a server for a block filesystem. This
project models their state changing code and proves what it keeps.

- **Memory.** `Layout` has the server's state by value (segments, holes, process tables, bytes)
  and what each request does to it, for first, best and worst fit. `LayoutInvariant`,
  `FreedMemory`, `CompactionProofs`, `ProcessView` and `MemoryRuns` prove that every run of requests
  refines a map from process and segment id to bytes, with segment 0 shared, `MemoryRanges` that
  what is written is read back, and `MemoryRoom` that requests of other threads take no room from a
  process that waits for a segment. `HoleMerging` says what merging merges, `MemoryReplies` what the
  replies say of the state they leave and what of them arrives. `MemoryServer` has the code as it is: `Segment` objects shared
  by the `ram` list, the hole list and the tables, and one byte array changed in place. `Mmu` is the
  CPU's address translation, `MemoryExamples` has a run and states in which the server does not do
  what its requests promise.
- **Filesystem.** `BlockPointers` and `Disk` have bitmap, blocks and control blocks by value,
  `DiskInvariant` and `DiskContent` who owns which block and what happens to the bytes,
  `FileView` the refinement to names and byte strings over every run. `FileSystem` is the code
  over a bitmap array and one flat byte array (`FlatFile`). `BlockZero` is about the block that an
  absent pointer is read as.
- **Kernel.** `Scheduling` has FIFO and HRRN picking, `KernelState` the steps of all threads,
  `WaitQueues`, `KernelInvariant`, `KernelSteps`, `KernelReaping` and `KernelRuns` what every
  interleaving keeps: `Core` over all runs of steps the threads can take, `Inv` over exactly those
  in which nobody closes another's file or is lost in a scan. `ScanOrder` and `KernelChoices` say who
  runs, who is admitted and what each request leaves, `KernelHistory` in which order over whole runs
  and what estimates become. `KernelSignals` is about who owns a
  resource, `KernelFiles` about files nobody closes and positions nobody set, `SegmentCreation` puts
  the kernel's request for a segment and the memory server together, other threads' requests
  between. `KernelServer` is the code: `Pcb` objects shared by the queues of the schedulers, of
  resources and of files, by the helper threads and by `Semaphore` objects as their owners.
  `KernelExamples` has runs that end where the code goes wrong.
- **Packages.** `Packages` and `Decimal` have the byte format, `Wire`, `ContextWire` and
  `TablesWire` what is sent in it, `PackageBuffers` the code that grows buffers and advances
  offsets.

Each class is proved against the functions of its by-value module (`View` gives the value), and
the theorems are about those functions.

## What is assumed

Where the code makes no check, the model asks for what the code needs (`Legal`):

- Memory: sizes of created and read segments are positive, offsets are not negative, the process
  exists (or, when it starts, does not yet), a deleted segment exists, and a compaction finds at
  least one segment besides segment 0.
  Ids need not be fresh: all lookups take the first match, as in the code. The heap array has two
  bytes more than the memory size, because the code reaches them (below).
- Filesystem: the block size is a multiple of 4, a size is at most
  `block_size * (1 + block_size / 4)`, enough blocks are free, positions lie in the blocks the file
  has, and the text to write is as long as the size says. The invariant takes block 0 as
  reserved and zero; `BlockZero` says what happens when it is not.
- Kernel: a compaction waits until no transfer is queued, an HRRN scan meets nonzero burst
  estimates and at least one positive ratio (`CanDispatch`: it does over every run, if the initial
  estimate is positive, alfa in (0, 1], no burst negative and the clock not behind), and the degree of multiprogramming and the resources'
  instances are not negative. Runs go on past a signal whose log line reads through null, and past a
  transfer that is handed a null position (both below), as if these were harmless, so that the
  theorems hold for the kernel with and without them.
- Packages: lengths are below 2^64, types and numbers fit the widths of the format, arguments
  are C strings.

Numbers are otherwise unbounded. Library calls are taken to do what their names say: sorting a
list, a dictionary as a map, a queue as a sequence. Each request of the memory server, and
each step of a kernel thread, is atomic.

## Where the code does not do what is promised

The model follows the code, and says exactly when the promise holds:

- `compact_memory` puts the hole one byte behind the packed end (line 149 against line 140).
  `CompactTilesIffFull`: segments and holes tile the memory afterwards iff nothing was free.
  `LastByteOutside`: the last byte of a segment made in that hole lies outside the memory. Over
  every run, of `size + 1` addresses exactly one is in no segment and no hole (`OneByteUnheld`).
- `write_memory` also copies the terminator (line 193). `WriteRefinesIff`: a write reaches exactly
  the bytes it names iff the terminator is harmless. `FullWriteHitsNeighbour` gives a state in which
  it is not.
- Hole merging looks only at list neighbours. `CompactionImpossible`: a run after which the server
  asks for a compaction with no segment left to compact. `CompactionPossibleIff` says when it can,
  `GoesThroughIff` when the kernel's exchange with the memory never meets this: the free total is
  too small, or a hole has room, or some process still has a segment when the compaction comes, as
  it does if the process that asks has one (`OwnerGoesThrough`).
- The CPU accepts negative logical addresses: C divides towards zero, and neither bound check looks
  below. `InsideIff`: an accepted access starts inside its segment iff its address is not negative
  or a multiple of the maximum. `MinusOneAccepted`: both checks pass the byte before the heap.
- The bitmap does not reserve block 0, and an absent indirect pointer is read as 0.
  `GrowsRightIff`: growing a file to its first indirect block goes right iff block 0 is zero.
  `FirstFileLosesBlock`: on an empty disk the first file gets block 0, and growing it goes wrong.
- `F_CLOSE` does not check who closes. `CloseFilesIff`: at most one process holds the file
  afterwards, with a global entry, iff whoever else holds it is the waiter that gets it.
  `OneHolderIff`: over a whole run, iff nobody closes another's file. `ForeignClose` and
  `TwoHolders`: a run after which a process may do so, and one in which two then have the file.
- HRRN does not put back the processes it passes over while they are not READY.
  `HrrnConservesIff`: nobody is lost iff every process with a new highest ratio is READY.
  `NobodyMissingIff`: over a whole run, iff all scans met only such. `ScanLosesSleeper` and
  `SleeperIsLost`: a run after which a scan would lose a process that sleeps, and then does.
- A process that exits does not close its files. `OrphanIff`: this is the only way for a file to be
  open with nobody to close it, and an `F_CLOSE` by a process that does not have it the only way
  out. `OrphanStays`: until then whoever waits for it stays in BLOCK; `OrphanedFile` is such a run.
- `F_OPEN` and a hand-over store a null position. `TransferReadsNullIff`: over every run, `F_READ` and
  `F_WRITE` pass it on iff there was no `F_SEEK` since; `TransferWithoutSeek` is such a run.
- The kernel compacts when no transfer is queued, though one may be under way
  (`CompactionWhileServing`). It does no harm: reads are the same before and after
  (`CompactionInvisible`), and so are writes whose terminator does not spill (`WriteCommutes`).
- `SIGNAL` with nobody waiting logs the pid of the last owner, and clears the owner.
  `SignalReadsNullIff`: over every run and for any number of instances it reads through null iff
  nobody waits and the resource was given to nobody since an instance last came back, or at all.
  `SoleSignalIff`: with one instance, as long as no signal did, iff the instance is available. So it
  happens to a process that never waited (`SignalWithoutWait`), and with two instances to one that
  did and still has its instance (`HolderCannotSignal`).
- The pid search of `serialize_all_segments_tables` ends iff no pid is negative: `SearchEndsIff`.

## Model

| member | source | states |
|---|---|---|
| `LayoutInvariant.InitialInv` | memoria/src/utils_memoria.c:18-42 | the state a server starts with keeps the invariant: segment 0, one hole for the rest, nothing overlapping |
| `Pieces.MergeKeepsFree` | memoria/src/handler_instruction_memoria.c:94-112 | for any order of the hole list, merging keeps the exact set of free bytes and their number, and holes disjoint from each other and from segments |
| `HoleMerging.MergesFirst` | memoria/src/handler_instruction_memoria.c:94-112 | the first two neighbours of the list that meet become one hole with both lengths, what is before stays, the hole behind is passed over, and the pass goes on behind it; the list gets shorter |
| `HoleMerging.UnchangedIff` | memoria/src/handler_instruction_memoria.c:94-112 | the pass changes nothing iff no neighbours of the list meet |
| `HoleMerging.MergesFreed` | memoria/src/handler_instruction_memoria.c:86-112 | while no holes meet, a freed segment is joined to the last hole if that ends where it starts, and is a hole of its own otherwise; and again none meet |
| `HoleMerging.DeleteMerges` | memoria/src/handler_instruction_memoria.c:56-92 | deleting a segment behind the last hole leaves one hole with room for both |
| `HoleMerging.DeleteCounts` | memoria/src/handler_instruction_memoria.c:56-112 | a deletion makes one hole more iff nothing meets in the list with the segment behind it, and never more than one |
| `LayoutInvariant.CreateTableInv` | memoria/src/handler_instruction_memoria.c:5-11 | a new process table, with segment 0 only, keeps the invariant |
| `LayoutInvariant.PlaceInv` | memoria/src/algorithms.c:3-130 | putting a segment at the front of any hole that has room keeps the invariant: no overlap, free memory the sum of holes, each segment in one table |
| `FreedMemory.DeleteFrees` | memoria/src/handler_instruction_memoria.c:56-92 | deleting a segment of a process keeps the invariant, and the free bytes are those there were and those of the segment, no others |
| `FreedMemory.ClearTableFrees` | memoria/src/handler_instruction_memoria.c:13-23 | removing a process's segments one by one, whatever ids repeat, leaves segment 0 alone in its table, other tables untouched, and frees exactly the bytes of its own segments |
| `FreedMemory.RemoveTableFrees` | memoria/src/handler_instruction_memoria.c:13-23 | ending a process removes its table and no other, keeps the invariant, and returns exactly the bytes of its own segments to the holes |
| `LayoutInvariant.CompactInv` | memoria/src/handler_instruction_memoria.c:127-152 | compaction keeps the invariant |
| `CompactionProofs.MoveDownKeeps` | memoria/src/handler_instruction_memoria.c:135-144 | the overlapping copies in ascending order: moved segments hold the bytes they had, those not yet moved are untouched |
| `CompactionProofs.CompactKeepsSlot` | memoria/src/handler_instruction_memoria.c:127-152 | every entry of every table holds the same bytes, id and size after a compaction |
| `CompactionProofs.CompactPacks` | memoria/src/handler_instruction_memoria.c:127-144 | after a compaction segments are in the order of their addresses and without gaps from the end of segment 0 |
| `CompactionProofs.OneByteUnheld` | memoria/src/handler_instruction_memoria.c:25-152 | in every state, of the size + 1 addresses used exactly one is in no segment and no hole, and none is in two |
| `CompactionProofs.TilesReservedIff` | memoria/src/handler_instruction_memoria.c:146-151 | segments and holes tile the reserved memory iff nothing lies on the byte behind it |
| `CompactionProofs.CompactTilesIffFull` | memoria/src/handler_instruction_memoria.c:146-151 | after a compaction the memory is tiled iff no memory was free: the hole starts one byte too late |
| `CompactionProofs.InsideTiles` | memoria/src/handler_instruction_memoria.c:25-112 | while nothing reaches past the memory, segments and holes tile it exactly |
| `CompactionProofs.AnswerMeans` | memoria/src/handler_instruction_memoria.c:25-55 | add_segment answers -2 iff the free total is too small, -1 iff it suffices and no hole does, and otherwise succeeds; a refusal changes nothing |
| `MemoryReplies.AnswerIsPlace` | memoria/src/handler_instruction_memoria.c:42-45 | an answer that is not negative is the base of the segment, which is the last of the process's table and of ram and was cut from the front of a hole with room |
| `MemoryReplies.CreatedIsPlace` | memoria/src/handlers.c:80-99 | so is the base in the reply of the server |
| `MemoryReplies.HolesAfter` | memoria/src/algorithms.c:20-43 | the hole loses its front; used up, the first empty hole of the list goes |
| `CompactionProofs.CompactHole` | memoria/src/handler_instruction_memoria.c:146-151 | after a compaction there is one hole, with all that is free |
| `CompactionProofs.RetrySucceeds` | memoria/src/handler_instruction_memoria.c:25-55 | after -1, one compaction, if there is a segment to compact, makes the same request succeed, for all three algorithms |
| `MemoryReplies.CompactReply` | memoria/src/handlers.c:107-114 | the tables in the reply to a compaction are those of the state it leaves, with the pids, ids and sizes there were, and lead to each segment's old bytes in the new memory |
| `MemoryReplies.InitReply` | memoria/src/handlers.c:59-69 | a new process is answered with the table it has, segment 0 alone |
| `ProcessView.WriteRefinesIff` | memoria/src/handler_instruction_memoria.c:186-203 | an accepted write changes exactly the bytes it names, for all processes, iff its terminator reaches no other segment's byte |
| `ProcessView.ServeRefines` | memoria/src/handlers.c:32-119 | every request keeps the invariant and, unless a terminator spills, is a step of the map from process and id to bytes; bases and tables in replies are the matter of CreatedIsPlace, InitReply and CompactReply |
| `MemoryRuns.RunSnoc` | memoria/src/handlers.c:22-125 | a run followed by one more request is a run, with that request's state and reply at its end |
| `MemoryRuns.TiledUntilCompaction` | memoria/src/handlers.c:32-119 | over every run without a compaction, segments and holes tile exactly the reserved memory |
| `MemoryRanges.RunKeepsContent` | memoria/src/handlers.c:32-119 | over every run, bytes of a segment stay unless a write overlaps them, its terminator or one from the segment before lands on them, or segment or process goes, whatever is written elsewhere in the segment |
| `MemoryRanges.ReadAfterWrite` | memoria/src/handler_instruction_memoria.c:154-203 | after an accepted write and any run that does not disturb the bytes written, writes next to them allowed, the process reads back what it wrote |
| `MemoryRuns.CompactionInvisible` | memoria/src/handler_instruction_memoria.c:127-184 | every read gives the same reply before and after a compaction |
| `MemoryRuns.WriteCommutes` | memoria/src/handler_instruction_memoria.c:127-203 | a write before or after a compaction gets the same reply and, its terminator harmless in both places, leaves every process the same bytes |
| `MemoryRuns.NoConsecutiveCompactRequests` | kernel/src/kernel.c:204-243 | if the compaction asked for can be carried out, the retried request is answered with a segment, not with another compaction request |
| `MemoryServer.MemoryServer.constructor` | memoria/src/utils_memoria.c:18-42 | the objects of a new server: one shared segment 0, one hole, no tables; the invariant holds |
| `MemoryServer.MemoryServer.CreateSgTable` | memoria/src/handler_instruction_memoria.c:5-11 | a new table shares the object of segment 0 |
| `MemoryServer.MemoryServer.FirstFit` | memoria/src/algorithms.c:3-43 | the scan takes the first hole with room, splits it, and puts one new object into table and ram; no room, no change |
| `MemoryServer.MemoryServer.BestFit` | memoria/src/algorithms.c:49-88 | the scan takes the smallest hole with room, the earliest of equals |
| `MemoryServer.MemoryServer.WorstFit` | memoria/src/algorithms.c:90-130 | the scan takes the largest hole, the earliest of equals, if it has room |
| `MemoryServer.MemoryServer.AddSegment` | memoria/src/handler_instruction_memoria.c:25-55 | objects, lists, bytes and free count become those of the request by value, with its answer; the invariant holds |
| `MemoryServer.MemoryServer.CompactHoleList` | memoria/src/handler_instruction_memoria.c:94-112 | the loop over shared objects merges neighbours as by value and skips one after each merge |
| `MemoryServer.MemoryServer.DeleteSegment` | memoria/src/handler_instruction_memoria.c:56-92 | the object leaves the table and ram and becomes a hole; the state is the one by value and the invariant holds |
| `MemoryServer.MemoryServer.RemoveSgTable` | memoria/src/handler_instruction_memoria.c:13-23 | the loop ends, taking one segment a turn, and leaves the state of ending the process by value |
| `MemoryServer.SortSegments` | memoria/src/handler_instruction_memoria.c:128 | the ram list is sorted by base address, the same objects in it |
| `MemoryServer.MemoryServer.CompactMemory` | memoria/src/handler_instruction_memoria.c:127-152 | the objects' bases, the hole list and the bytes moved in place are those of the compaction by value |
| `MemoryServer.MemoryServer.GetSegmentById` | memoria/src/handler_instruction_memoria.c:205-217 | the first entry of the table with the id, or none |
| `MemoryServer.MemoryServer.ReadMemory` | memoria/src/handler_instruction_memoria.c:154-184 | the pieces of at most 16 bytes together are the segment's bytes at the offset; none when the bound check or the id fails |
| `MemoryServer.MemoryServer.WriteMemory` | memoria/src/handler_instruction_memoria.c:186-203 | text and terminator are put at the offset if the text fits the segment, and nothing happens otherwise |
| `MemoryServer.MemoryServer.Handle` | memoria/src/handlers.c:32-119 | state and reply of each request are those by value, and the invariant holds |
| `MemoryServer.MemoryServer.HandleModules` | memoria/src/handlers.c:22-125 | the loop's state and replies are those of the run of the requests served |
| `MemoryExamples.LastByteOutside` | memoria/src/handler_instruction_memoria.c:149 | after any compaction that leaves memory free, a segment of all of it ends one byte outside the memory |
| `MemoryRuns.CompactionPossibleIff` | memoria/src/handler_instruction_memoria.c:129 | a compaction can be carried out iff some process has a segment of its own |
| `MemoryExamples.FullWriteHitsNeighbour` | memoria/src/handler_instruction_memoria.c:193 | a state, with the invariant, in which a write that fills its segment turns the first byte of the next segment into 0 |
| `MemoryExamples.CompactionImpossible` | memoria/src/handler_instruction_memoria.c:94-129 | a run after which the server asks for a compaction that it cannot carry out |
| `Mmu.ListGetBySid` | cpu/src/utils_cpu.c:81-89 | the position of the first segment with the id, or -1 |
| `Mmu.TranslateAddress` | cpu/src/utils_cpu.c:60-79 | refuses a size that is not positive, above the maximum or beyond the segment, and otherwise gives segment, offset and address, for negative addresses too |
| `Mmu.NamesIff` | cpu/src/utils_cpu.c:70-71 | C's quotient and remainder are the one pair that makes up the address, the offset below the maximum and of the address's sign |
| `Mmu.AcceptedIffMemoryAccepts` | cpu/src/utils_cpu.c:60-79 | for the segment and offset that make up the address: the CPU accepts an access iff its size is allowed and the memory's own bound check passes, and then gives this segment and offset |
| `Mmu.InsideIff` | cpu/src/utils_cpu.c:60-79 | an access the CPU accepts starts inside its segment iff its logical address is not negative or a multiple of the maximum segment size |
| `Mmu.MinusOneAccepted` | cpu/src/utils_cpu.c:60-79 | in every state the CPU and the memory accept the address -1, the byte before the heap |
| `Mmu.AddressIsPhysical` | cpu/src/utils_cpu.c:69-75 | with current bases the address reported is where the memory has the byte |
| `Mmu.DisjointAccesses` | cpu/src/utils_cpu.c:60-79 | accesses of a process that do not overlap logically do not overlap physically |
| `Mmu.DisjointAfterCompaction` | cpu/src/utils_cpu.c:60-79 | the same after a compaction, with the CPU's old copy of the table |
| `BlockPointers.DecodeEncode` | filesystem/src/handler_instruction_filesystem.c:340-351 | a 32-bit pointer is read back as written |
| `BlockPointers.NoPointersIff` | filesystem/src/handler_instruction_filesystem.c:346-358 | a block lists no pointers iff it is zero |
| `BlockPointers.GetAfterPut` | filesystem/src/handler_instruction_filesystem.c:337-358 | reading the list of a block gives exactly the list written over its front, if the rest is zero |
| `BlockPointers.GetsNonZero` | filesystem/src/handler_instruction_filesystem.c:346-358 | of any pointers in a block those that are not 0 are listed, also behind a 0, in order |
| `Disk.FreshSplit` | filesystem/src/handler_instruction_filesystem.c:409-421 | blocks taken in two goes are those taken in one, in the same order |
| `DiskInvariant.CeilDivIsLeast` | filesystem/src/handler_instruction_filesystem.c:290 | the number of blocks for a size is the least that holds it |
| `DiskInvariant.Transition` | filesystem/src/handler_instruction_filesystem.c:192-335 | changing one file's blocks, taking only free ones and zeroing those it drops, keeps ownership on the whole disk |
| `DiskInvariant.DropAllKeeps` | filesystem/src/handler_instruction_filesystem.c:211-247 | truncating to 0 zeroes and frees each block of the file once and no other |
| `DiskInvariant.KeepOneKeeps` | filesystem/src/handler_instruction_filesystem.c:248-276 | truncating to one block keeps or takes the direct block and frees the list and the indirect block |
| `DiskInvariant.GrowKeeps` | filesystem/src/handler_instruction_filesystem.c:278-302 | growing takes the missing pointers and blocks, keeps the old list in front, and writes a list that is read back whole |
| `DiskInvariant.CutKeeps` | filesystem/src/handler_instruction_filesystem.c:303-327 | shrinking frees and zeroes exactly the end of the list and rewrites the rest |
| `DiskInvariant.SameCountKeeps` | filesystem/src/handler_instruction_filesystem.c:290-303 | with as many blocks as before only the size changes |
| `DiskContent.ResizeTruncates` | filesystem/src/handler_instruction_filesystem.c:192-335 | for any old and new size the file's bytes are those it had, cut or filled with zeros to whole blocks, and other files keep theirs; ownership is kept |
| `DiskContent.ReadIsSlice` | filesystem/src/handler_instruction_filesystem.c:128-158 | what is read is the file's bytes at the position, zeros shown as spaces |
| `DiskContent.ReadShows` | filesystem/src/handler_instruction_filesystem.c:143-146 | byte by byte what is read is the file's, but a space for a zero |
| `DiskContent.WriteIsSplice` | filesystem/src/handler_instruction_filesystem.c:128-158 | writing replaces exactly the file's bytes at the position by the text |
| `DiskContent.WriteTouches` | filesystem/src/handler_instruction_filesystem.c:128-158 | blocks before that of the first byte and behind that of the last stay as they are |
| `DiskContent.WriteKeepsOthers` | filesystem/src/handler_instruction_filesystem.c:128-158 | blocks that are not the file's stay as they are |
| `FileView.ServeRefines` | filesystem/src/handler_instruction_filesystem.c:26-93 | every request keeps block ownership and is a step on names and byte strings |
| `FileView.RunKeeps` | filesystem/src/handler_instruction_filesystem.c:5-24 | block ownership holds at the end of every run |
| `FileView.RunKeepsRange` | filesystem/src/handler_instruction_filesystem.c:5-24 | over every run, bytes of a file that are not overwritten or cut off stay, whatever happens to other files |
| `FileView.ReadAfterWrite` | filesystem/src/handler_instruction_filesystem.c:95-172 | after a write of bytes that are not 0 and any run that does not disturb them, a read gives them back |
| `FileView.EmptyInv` | filesystem/src/handler_instruction_filesystem.c:409-421 | an empty disk with block 0 reserved has its blocks in order |
| `FlatFile.BlocksSuffice` | filesystem/src/handler_instruction_filesystem.c:128-133 | the loop's last block number is enough for any position and size |
| `FileSystem.FileSystem.NextBitPosition` | filesystem/src/handler_instruction_filesystem.c:409-421 | the lowest clear bit is found and set; with none, -1 and no change |
| `FileSystem.FileSystem.SetBfIp` | filesystem/src/handler_instruction_filesystem.c:337-344 | the list is written over the front of the indirect block and no other block changes |
| `FileSystem.FileSystem.GetBfIp` | filesystem/src/handler_instruction_filesystem.c:346-358 | all pointers of the block that are not 0, in order |
| `FileSystem.FileSystem.FreeTail` | filesystem/src/handler_instruction_filesystem.c:303-319 | the blocks behind the first ones of the list are zeroed and freed, last first, and the others kept |
| `FileSystem.FileSystem.ResizeToNothing` | filesystem/src/handler_instruction_filesystem.c:211-247 | direct, listed and indirect blocks are zeroed and freed as by value |
| `FileSystem.FileSystem.ResizeToOne` | filesystem/src/handler_instruction_filesystem.c:248-276 | the direct block is kept or taken, list and indirect block are freed as by value |
| `FileSystem.FileSystem.ResizeToMany` | filesystem/src/handler_instruction_filesystem.c:277-328 | pointers are taken if missing, the list is made longer or shorter as by value |
| `FileSystem.FileSystem.ResizeBlock` | filesystem/src/handler_instruction_filesystem.c:192-335 | bitmap, bytes and control block become those of truncating by value |
| `FileSystem.FileSystem.CopyBlocks` | filesystem/src/handler_instruction_filesystem.c:126-158 | the two nested loops transfer exactly the bytes asked for, between the list's blocks and the text or buffer |
| `FileSystem.FileSystem.IterateBlockFile` | filesystem/src/handler_instruction_filesystem.c:95-172 | a write leaves the disk of writing byte by byte; a read gives the bytes read with a terminator and changes nothing |
| `FileSystem.FileSystem.OpenFile` | filesystem/src/handler_instruction_filesystem.c:360-407 | a missing file is made, empty, if that is allowed; otherwise the answer is no and nothing changes |
| `FileSystem.FileSystem.ProcessInstruction` | filesystem/src/handler_instruction_filesystem.c:26-93 | disk and reply of each request are those by value, and blocks stay in order |
| `FileSystem.FileSystem.HandleKernel` | filesystem/src/handler_instruction_filesystem.c:5-24 | the loop ends in the state of the run, with its replies |
| `BlockZero.GrowsRightIff` | filesystem/src/handler_instruction_filesystem.c:203-302 | growing a file to its first indirect block gives it the right blocks iff block 0, read in its place, is zero |
| `BlockZero.FirstFileLosesBlock` | filesystem/src/handler_instruction_filesystem.c:203-302 | on an empty disk the first file gets block 0, and with a byte written growing it to two blocks goes wrong |
| `Scheduling.HrrnConservesIff` | kernel/src/algorithms_kernel.c:36-84 | after the scan every process is still queued or returned iff each process with a new highest ratio is READY |
| `Scheduling.HrrnChoice` | kernel/src/algorithms_kernel.c:36-95 | with all READY and a positive ratio the earliest process of the highest ratio is returned and all others stay queued |
| `ScanOrder.QueueOrder` | kernel/src/algorithms_kernel.c:40-82 | the rebuilt queue keeps the order, but that a leader's place goes to the one it overtakes, if READY, and those that draw level come last |
| `KernelChoices.HrrnRuns` | kernel/src/algorithms_kernel.c:44-95 | of the processes' own times: the one whose wait against its estimate no other exceeds, the earliest of equals, runs iff it is READY, and its time of being ready is set and no other's |
| `KernelChoices.HrrnQueue` | kernel/src/algorithms_kernel.c:40-82 | a dispatch by scan leaves the queue in that order |
| `KernelChoices.FirstReadyRuns` | kernel/src/algorithms_kernel.c:3-21 | under FIFO, or with one active process, the first READY process runs and the others keep their order |
| `KernelChoices.NobodyRuns` | kernel/src/algorithms_kernel.c:3-21 | and with nobody READY nobody runs and nothing changes |
| `KernelChoices.PriorityRuns` | kernel/src/scheduler.c:78-82 | who has priority runs, whatever the algorithm, and the others keep their order |
| `WaitQueues.Join` | kernel/src/kernel.c:83-92 | a process put into one queue is in that one only, and everybody who waits is still in exactly one |
| `WaitQueues.Leave` | kernel/src/kernel_utils.c:52-57 | taking a process out of its queue leaves all others in exactly one |
| `KernelInvariant.RequeuePlaces` | kernel/src/kernel.c:322-326 | after the requeue nobody is in two places, who was in one is in one, active ones are READY or BLOCK but for one that exited, and the limit holds |
| `KernelInvariant.CloseFilesIff` | kernel/src/kernel.c:131-150 | after F_CLOSE a file is held by one process at most, with a global entry, iff whoever else held it is the waiter that gets it |
| `KernelInvariant.SwitchWaits` | kernel/src/kernel.c:74-317 | whatever is asked, every process in BLOCK is in exactly one queue and nobody else in any |
| `KernelInvariant.SwitchResources` | kernel/src/kernel.c:283-308 | whatever is asked, every resource balances: none available while somebody waits, instances conserved, waiters in order |
| `KernelSteps.ServeKeeps` | kernel/src/kernel.c:74-332 | serving any request, whoever's file it closes, keeps the core of the invariant: places, wait queues, resources, limit and turn |
| `KernelSteps.ServeFilesIff` | kernel/src/kernel.c:74-332 | after a request each file is held by one process at most, with a global entry, iff the request is not an F_CLOSE of a file somebody else keeps |
| `KernelChoices.ServeLeaves` | kernel/src/kernel.c:74-332 | after a request the process is at the end of the active queue, in EXIT, BLOCK or READY exactly as the request has it, with priority iff it was given an instance or signalled; the one who is woken is READY and everybody else as before |
| `KernelChoices.ServeResource` | kernel/src/kernel.c:283-308 | of a resource: WAIT takes an instance or queues the process last, SIGNAL gives it to the first or adds one without owner, nothing else changes it |
| `KernelChoices.ServeFileQueues` | kernel/src/kernel.c:88-150 | of a file's queue: F_OPEN of an open file appends the process, F_CLOSE takes out the first, nothing else changes it; and when the kernel has the file |
| `KernelSteps.DispatchKeeps` | kernel/src/scheduler.c:76-87 | every dispatch keeps the core; who goes, who stays queued and whom a scan loses are together the processes there were |
| `KernelSteps.LostIff` | kernel/src/algorithms_kernel.c:36-84 | a dispatch loses nobody iff its HRRN scan, if there is one, meets no leader that is not READY |
| `KernelSteps.ArriveKeeps` | kernel/src/handler_pcb.c:20-60 | a new process in the queue of new ones keeps the core, in its one place |
| `KernelSteps.IoDoneKeeps` | kernel/src/kernel_utils.c:33-38 | waking a process from I/O keeps the core, everybody's place and every file's holders, in any order of wake-ups, also for a process a scan lost |
| `KernelSteps.FsReplyKeeps` | kernel/src/handler_pcb.c:62-92 | the end of a transfer keeps the core, everybody's place and every file's holders; after an error the process stays in BLOCK |
| `KernelReaping.ExitReleases` | kernel/src/scheduler.c:18-29 | a process that exits gives back one instance of each resource last assigned to it, and nothing else |
| `KernelReaping.FinishKeeps` | kernel/src/scheduler.c:6-45 | taking out the process that exited keeps the core, moves it to the finished ones and leaves nobody in EXIT active |
| `KernelReaping.ReapKeeps` | kernel/src/scheduler.c:6-45 | though it skips one process after each it takes out, in every reachable state the loop takes out whoever exited |
| `KernelReaping.RescheduleKeeps` | kernel/src/scheduler.c:3-74 | reaping and admitting at most one process keep the core and everybody's place, and give no file a second holder |
| `KernelChoices.RescheduleAdmits` | kernel/src/scheduler.c:3-74 | those that exited leave the active queue, the others keep their order, and the first new process enters last and READY iff there is one and room below the limit |
| `KernelRuns.StepKeepsCore` | kernel/src/kernel.c:48-332 | every step a thread can take keeps the core, and nobody comes, goes or is lost unaccounted |
| `KernelRuns.StepFilesIff` | kernel/src/kernel.c:48-332 | a step keeps one holder a file iff it closes nobody else's file |
| `KernelRuns.StepKeepsIff` | kernel/src/kernel.c:48-332 | a step keeps the whole invariant iff it closes nobody else's file and loses nobody in a scan |
| `KernelRuns.StartInv` | kernel/src/kernel_utils.c:3-31 | the kernel's first state has the whole invariant |
| `KernelRuns.RunKeeps` | kernel/src/kernel.c:48-332 | the core holds at the end of every interleaving of steps the threads can take |
| `KernelRuns.AlwaysInvIff` | kernel/src/kernel.c:48-332 | the whole invariant holds at every moment of a run iff no step of it closes another's file or loses a process in a scan |
| `KernelRuns.OnePlace` | kernel/src/scheduler.c:48-70 | over every run, each process is in exactly one of new, active, running, finished and lost in a scan, and there once |
| `KernelRuns.NobodyMissingIff` | kernel/src/algorithms_kernel.c:36-84 | at the end of a run nobody is missing iff all its scans met only leaders that were READY |
| `KernelRuns.OneQueue` | kernel/src/kernel.c:83-308 | over every run, a queued process is in BLOCK, in no second place of any queue, and active unless a scan lost it |
| `KernelRuns.BlockedIffQueued` | kernel/src/kernel.c:83-308 | over every run, a process is in BLOCK iff some queue has it |
| `KernelRuns.Multiprogramming` | kernel/src/scheduler.c:48-70 | over every run, active and running processes never exceed the degree of multiprogramming by more than one |
| `KernelHistory.AdmittedInOrder` | kernel/src/scheduler.c:48-70 | over every run, processes are admitted in the order they arrived |
| `KernelHistory.TransfersInOrder` | kernel/src/handler_pcb.c:62-66 | over every run, the filesystem thread takes up transfers in the order they were asked for |
| `KernelHistory.StepTimes` | kernel/src/kernel.c:271-282 | an arrival, a YIELD under HRRN and a scan change the times of one process each, and nothing else changes any |
| `KernelHistory.EstimateIs` | kernel/src/kernel.c:276 | the new estimate is the configured one and the last burst weighed by alfa, and between them |
| `KernelHistory.CanDispatch` | kernel/src/algorithms_kernel.c:44-95 | over every run with positive estimates and alfa, an HRRN scan divides by no zero and finds somebody |
| `KernelRuns.SemaphoreLaw` | kernel/src/kernel_utils.c:52-65 | over every run: who blocked first is woken first, instances are conserved and never negative, none is available while somebody waits |
| `KernelRuns.OneHolderIff` | kernel/src/kernel.c:88-150 | at every moment of a run each file is open for one process at most, with a global entry, iff no step closes another's file, whatever scans lose |
| `KernelRuns.OneHolder` | kernel/src/kernel.c:88-150 | over runs in which nobody closes another's file, two processes that have a file open are the same, and the file has a global entry |
| `KernelRuns.CloseHandsOver` | kernel/src/kernel.c:131-150 | closing an open file makes the first waiter its only holder and READY; with nobody waiting the global entry goes |
| `KernelRuns.EntryKept` | kernel/src/kernel.c:88-150 | whatever step is taken, a file that somebody waits for keeps its global entry |
| `KernelSignals.StepEvent` | kernel/src/kernel_utils.c:52-65 | every step is at each resource nothing, one grant, one blocking or one signal, and only a signal that reads through null gives back an instance nobody owns |
| `KernelSignals.SignalReadsNullIff` | kernel/src/kernel_utils.c:59-61 | over every run, for any number of instances: a signal reads through null iff nobody waits and the resource was given to nobody since an instance last came back, or at all |
| `KernelSignals.SoleSignalIff` | kernel/src/kernel_utils.c:59-61 | over every run in which no signal of the resource read through null: a signal on a resource of one instance does iff the instance is available |
| `KernelFiles.OrphanIff` | kernel/src/scheduler.c:6-45 | after a step a file is open with nobody to close it iff it was and the step is not an F_CLOSE of it, or the long-term scheduler took out all who had it |
| `KernelFiles.OrphanStays` | kernel/src/kernel.c:88-150 | over every run in which nobody closes such a file it stays so, and whoever waits for it keeps its place in the queue, in BLOCK |
| `KernelFiles.PositionIs` | kernel/src/kernel.c:152-160 | over every run, the position a process has in a file is the one it last asked for since it got the file |
| `KernelFiles.TransferReadsNullIff` | kernel/src/kernel.c:175-192 | over every run, F_READ or F_WRITE is handed a null position iff the process has the file and no F_SEEK since it was opened for it or handed to it |
| `MemoryRoom.RunNoLess` | memoria/src/handlers.c:32-119 | whatever requests of other threads come while a process waits for its segment, no room is taken away and its own segments stay |
| `MemoryRoom.RetryAfterOthers` | kernel/src/kernel.c:204-236 | with any requests of other threads before the compaction and between it and the retry, the retry makes the segment |
| `SegmentCreation.GoesThroughIff` | kernel/src/kernel.c:204-243 | the compaction the memory asks for can be carried out, when it comes, iff the free total was too small, or a hole had room, or some process has a segment of its own then |
| `SegmentCreation.OwnerGoesThrough` | kernel/src/kernel.c:204-243 | if the asking process has a segment the compaction can be carried out, whoever ends meanwhile |
| `SegmentCreation.ExchangeEnds` | kernel/src/kernel.c:195-256 | whatever other threads send to the memory meanwhile, the exchange ends in a segment iff the free total suffices, in out of memory otherwise, never in a second compaction request |
| `SegmentCreation.AskerSurvivesIff` | kernel/src/kernel.c:243-247 | the process that asked for a segment exits iff the free total is too small, and is READY otherwise, whatever other threads do |
| `KernelServer.LoadResources` | kernel/src/kernel.c:22-31 | one fresh object per configured name, free and with its instances; of a name given twice the last |
| `KernelServer.Server.constructor` | kernel/src/kernel_utils.c:3-31 | the objects of the first state; the core of the invariant holds |
| `KernelServer.Server.ResourceSignal` | kernel/src/kernel_utils.c:52-65 | the control block that waited first becomes owner and is READY wherever it is shared, no other control block changes, and with nobody waiting there is one instance more and no owner |
| `KernelServer.Server.RequestOpen` | kernel/src/kernel.c:88-130 | a file that is open puts the shared control block into its queue in BLOCK; otherwise it is opened for the process, if found or made; no other control block changes |
| `KernelServer.Server.RequestClose` | kernel/src/kernel.c:131-150 | through the file's queue the control block that waited first gets the file and is READY, the process no longer has it, and no third control block changes |
| `KernelServer.Server.RequestWait` | kernel/src/kernel.c:283-300 | the resource object gives an instance and the process priority, or takes the control block into its queue in BLOCK; an unknown resource ends the process; no other control block changes |
| `KernelServer.Server.PickWithFifo` | kernel/src/algorithms_kernel.c:3-9 | the first READY process is taken out, and with none the queue stays |
| `KernelServer.Server.ScanActive` | kernel/src/algorithms_kernel.c:36-71 | the draining loop ends with the best process and the two queues of the scan by value |
| `KernelServer.Server.PickWithHrrn` | kernel/src/algorithms_kernel.c:16-99 | choice, queue and times for no, one or more active processes are those by value |
| `KernelServer.Server.ShortTermScheduler` | kernel/src/scheduler.c:76-87 | a process with priority goes first and loses it; otherwise the algorithm chooses |
| `KernelServer.Server.ReleaseResources` | kernel/src/scheduler.c:18-29 | the loop over all resources releases what the process owns as by value |
| `KernelServer.Server.ReapFinished` | kernel/src/scheduler.c:6-45 | the loop over a list that shrinks under it, waking control blocks in that same list, leaves the state of the reaping by value |
| `KernelServer.Server.LongTermSchedule` | kernel/src/scheduler.c:3-74 | reaping and admission as by value |
| `KernelServer.Server.Take` | kernel/src/kernel.c:48-332 | each step a thread can take, careful or not, leaves on the shared control blocks and resources the state by value, and the core holds |
| `KernelServer.Server.Interleave` | kernel/src/kernel.c:48-332 | any sequence of steps the threads can take ends in the state of the run by value, with the core |
| `KernelExamples.SignalWithoutWait` | kernel/src/kernel_utils.c:61 | a run after which a process that never waited reads through null by a signal |
| `KernelExamples.HolderCannotSignal` | kernel/src/kernel_utils.c:61 | a run with two instances given and one given back, after which the signal of the process that holds the other reads through null |
| `KernelExamples.ForeignClose` | kernel/src/kernel.c:131-150 | a run after which a process may close a file that another one keeps |
| `KernelExamples.TwoHolders` | kernel/src/kernel.c:88-150 | that done, a run after which two processes have the file open |
| `KernelExamples.ScanLosesSleeper` | kernel/src/algorithms_kernel.c:36-84 | a run after which an HRRN scan would drop a process that sleeps |
| `KernelExamples.SleeperIsLost` | kernel/src/algorithms_kernel.c:36-84 | that scan done, the sleeping process is neither new nor active, running or finished |
| `KernelExamples.OrphanedFile` | kernel/src/scheduler.c:6-45 | a run after which nobody has a file open, the kernel does, and a process waits for it |
| `KernelExamples.TransferWithoutSeek` | kernel/src/kernel.c:175-192 | a run after which a transfer of the running process would be handed a null position |
| `KernelExamples.CompactionWhileServing` | kernel/src/kernel.c:207-210 | a run after which a compaction may start while the filesystem thread serves a transfer |
| `Packages.NumberOfLittle` | shared/src/shared_package.c:35-36 | a number that fits its width is read back from its bytes |
| `Packages.KindReads` | shared/src/shared_package.c:109-110 | a 32-bit type, negative or not, is read back |
| `Packages.FieldsIff` | shared/src/shared_package.c:32-102 | a buffer reads as a list of values iff it is what adding them one by one makes |
| `Packages.NestedIff` | shared/src/shared_package.c:23-65 | a buffer reads as a list of packages iff it is what nesting them one by one makes |
| `Decimal.AtoiItoa` | shared/src/shared_serializer.c:156-202 | a number printed as text is read back, negative or not |
| `Decimal.ItoaShape` | shared/src/shared_serializer.c:156-202 | printed numbers have a minus iff negative, then digits without a leading zero |
| `Wire.InstructionArrives` | shared/src/shared_serializer.c:79-101 | an instruction arrives with its code and all arguments, any number and length |
| `Wire.InstructionsArrive` | shared/src/shared_serializer.c:71-93 | a list of instructions arrives whole and in order |
| `Wire.SegmentArrives` | shared/src/shared_serializer.c:156-202 | a segment arrives with size, id and its base relative to the heap, as a 32-bit number |
| `Wire.TableArrives` | shared/src/shared_serializer.c:145-191 | a segment table arrives whole and in order |
| `ContextWire.RegistersArrive` | shared/src/shared_serializer.c:103-143 | all twelve registers arrive, zero bytes included |
| `ContextWire.ContextArrives` | shared/src/shared_serializer.c:16-69 | an execution context arrives with instructions, program counter, burst time, pid, registers, request and each segment's size and id |
| `TablesWire.FoundAllIff` | shared/src/shared_serializer.c:168-182 | trying numbers below a bound finds as many processes as there are iff all their pids are below it |
| `TablesWire.SearchEndsIff` | shared/src/shared_serializer.c:168-182 | the search over pids ends iff none is negative |
| `TablesWire.TablesArrive` | shared/src/shared_serializer.c:168-213 | each process's table is sent once, and the receiver's dictionary is the sender's with bases relative to the heap |
| `TablesWire.PiecesArrive` | memoria/src/handlers.c:59-69 | a new process gets its table as the memory has it, bases counted from the start of the heap |
| `TablesWire.MemoryTablesArrive` | memoria/src/handlers.c:107-114 | any tables of the memory arrive, wherever the heap lies |
| `MemoryReplies.CompactReplyArrives` | memoria/src/handlers.c:107-114 | what the kernel reads from the reply to a compaction has each process's segments, and each base leads in the new memory to the segment's old bytes |
| `MemoryReplies.InitReplyArrives` | memoria/src/handlers.c:59-69 | what the kernel reads from the reply to a new process is the process's table |
| `PackageBuffers.PackageBuffer.Add` | shared/src/shared_package.c:32-38 | the value with its length is put behind what the buffer has |
| `PackageBuffers.PackageBuffer.Close` | shared/src/shared_package.c:104-117 | length, type and content become the content of a package without type |
| `PackageBuffers.PackageBuffer.Nest` | shared/src/shared_package.c:23-30 | the whole nested package is put behind what the buffer has |
| `PackageBuffers.Decode` | shared/src/shared_package.c:49-65 | the package at the offset, and the offset behind it |
| `PackageBuffers.DecodeString` | shared/src/shared_package.c:71-87 | the text at the offset up to its first zero byte, and the offset behind it |
| `PackageBuffers.SerializeInstruction` | shared/src/shared_serializer.c:79-83 | the loop over the arguments makes the instruction's package |
| `PackageBuffers.DeserializeInstruction` | shared/src/shared_serializer.c:95-101 | the offset loop ends with all arguments of the buffer |
| `PackageBuffers.DeserializeInstructions` | shared/src/shared_serializer.c:85-93 | the offset loop ends with all instructions of the buffer |
| `PackageBuffers.SerializeSegmentsTable` | shared/src/shared_serializer.c:184-191 | the loop over the segments makes the table's package |
| `PackageBuffers.DeserializeSegmentTable` | shared/src/shared_serializer.c:145-154 | the offset loop ends with all segments of the buffer |
| `PackageBuffers.SerializeAllSegmentsTables` | shared/src/shared_serializer.c:168-182 | the search ends for any set of pids that are not negative and makes the reply of a search that found everybody |
| `PackageBuffers.DeserializeAllSegmentsTables` | shared/src/shared_serializer.c:204-213 | the offset loop ends with the dictionary of all tables in the buffer |
| `PackageBuffers.SerializeCpuRegisters` | shared/src/shared_serializer.c:103-122 | twelve values of 4, 8 and 16 bytes, in order |
| `PackageBuffers.DeserializeCpuRegisters` | shared/src/shared_serializer.c:124-143 | the twelve values of the buffer in their registers |
| `PackageBuffers.SerializeExecutionContext` | shared/src/shared_serializer.c:16-28 | the parts in order, and the request only if there is one |
| `PackageBuffers.DeserializeExecutionContext` | shared/src/shared_serializer.c:30-69 | the offset loop ends with each part where its type says |

## Left out

- Sockets, threads and mutexes, sleeps, logging, configuration files and `mmap`; each request is one step.
- C memory management: allocation, freeing, use after free and leaks.
- Machine integers: sums and products do not wrap around, but for the truncation of addresses to `int` in `serialize_segment`.
- The console's parser, `read_op_code`, the CPU's fetch and execute, and the register name tables: case lists with only easy properties.
- `handle_modules` for unknown operations, and `process_instruction` for them: they change nothing.
- The filesystem's exchange with memory in `F_READ` and `F_WRITE`: the text read or written is a result or a parameter.
- `start_bitmap` and the packing of bits into bytes: the bitmap is an array of booleans.
- Control blocks of files in configuration files: they are a map from names.
- Allocation of control blocks: those that arrive exist before the run and are named by its steps.
- Rounding of `float` response ratios: they are real numbers.
- The kernel's copies of segment tables, and the CPU's, beyond ids and sizes.
- `ContextWire.ContextArrives`: of a segment's base it gives only the low 32 bits that are sent; the receiver puts them in a fresh cell.
- `show_queue_ready`, deadlock and starvation: the code does nothing about the latter two.
- Tests, scripts and build files.
