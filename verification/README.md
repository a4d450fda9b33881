# LazyOS in Dafny

LazyOS is a small 32-bit kernel. This project models three of its subsystems and proves what they
keep over whole runs.

**File system.** A table of 2648 clusters, a directory of 224 slots and a byte stream over 512-byte
sectors. `Disk` has the sector disk and the stream; `FatTable` the linked clusters; `RootDir` the
directory and its bytes; `DataRegion` what the writes do to each sector; `FileSystem` the effect of
create_file, read_file and delete_file as functions; `FileSystemLaws` and `FileSystemRuns` what one
call and every run of calls keep. `Fat12` has the operations in place on table, directory and disk,
each equal to its function.

**Memory.** `HeapTable` and `Heap` are the block allocator; `Frames` and `FrameMap` the bitmap of
physical frames and the set it stands for; `Paging` and `Vmm` the two-level page tables and the ranges
mapped in them; `KernelDirectory` the identity map; `Isolation` the address spaces of processes and
what creating and freeing one keeps; `SpaceRuns` whole runs of that, with other users of the heap in
between; `AddressSpaces` the operations as they run.

**Processes.** `Queue` is the max-heap; `Scheduler` the transition system of create, start, exit and
tick; `SchedulerRuns` its runs; `Process` the functions as they run; `Spinlock` the lock, one
instruction at a time, with scheduler events between any two. `Lifecycle` puts the scheduler and the
address spaces together, and `Processes` has create_process and the tick as they run on both.

## Where the code departs from what one would expect

The model does what the code does. Each of these is a lemma below.

- heap_mark_blocks_taken compares with `end_block` after writing an entry (src/memory/heap/heap.c:107),
  so the last block of a longer allocation carries HAS_NEXT too, and freeing it also clears what
  follows (`FreeExactly`, `FreeHitsNeighbour`, `NeighbourExample`). The buffer of read_file is such an
  allocation for files of 4096 bytes or more, and the block behind it may be the directory of a process
  (`BufferFreesDirectory`); `OtherExactly` says when a free leaves the address spaces alone.
- heap_get_start_block returns a free tail that is too short (`SearchExactly`, `TailExample`); a request
  for nothing marks nothing (`MallocOfNothing`). heap_free of an address just in front of the heap frees
  its first block (`FirstFreedExactly`).
- fill_from_to marks one frame only for short ranges inside a byte, and on most other paths one frame
  too many (`Short`, `Extra`, `FillFromTo`, `FillCovers`).
- fill_from_to writes behind the bitmap for ranges that reach the end of the 4 GB, such as the one from
  0xFFFC0000 on (`TailFits`, `TopOfMemory`).
- manual_prefill passes the heap's end address as a length (`ManualPrefill`).
- vmm_alloc ignores the result of paging_set, so with a full heap it reports success while its frames
  are marked and never given back (`AllocThenFree`, `FrameLost`, `LeakExample`).
- create_file goes on after a failed allocation and leaves a chain behind when the directory is full
  (`CreateExactly`).
- write_data_into_memory does not recompute the length of its last write (`OverRead`).
- read_file stores the NUL at the length of the last part (`NulPlacement`).
- FAT12_table_init loads half of the table (`RemountTable`).
- Names are compared on the first eight characters of the query only, and an empty name matches any slot
  (`MatchesExactly`, `WildDeleteExactly`).
- context_switch stores 3 for a running process, the number that src/queue/queue.h gives to a terminated
  one, so "finished" is defined by membership (`Finished`).
- The address space of a process is freed exactly when it leaves by process_exit and a tick comes before
  the next exit (`FreedExactly`, `LostExample`, `SpaceFreedExactly`); one that uses up its time is never
  freed (`BurstNeverFreed`). free_proc gives back one of two stack frames and one of three blocks
  (`CreateThenRetire`, `LeavesBehind`), a create that fails gives back nothing (`FailedCreateCosts`), so
  the number of processes ever created is bounded (`CreatesAreBounded`).
- releaseLock does not ask who holds the lock: a release by another process breaks mutual exclusion
  exactly when somebody holds it (`ForeignRelease`, `TwoHolders`).

## Model

| member | source | states |
|---|---|---|
| `Disk.DiskStream.Read` | src/disk/streamer.c:23-49 | any position and length on the disk: exactly the bytes `image[pos..pos+total)` are delivered and the position moves by `total` |
| `Disk.DiskStream.Write` | src/disk/streamer.c:51-81 | exactly the bytes `[pos..pos+total)` of the disk change, to the given ones, and the position moves by `total`, whatever sector borders lie in between |
| `Disk.WriteBack` | src/disk/streamer.c:60-73 | rewriting a whole sector of which only a part was replaced changes just that part of the disk |
| `Bytes.SpliceReadsBack` | src/disk/streamer.c:51-81 | what was written at a position is read back from it |
| `Bytes.SpliceGrow` | src/disk/streamer.c:56-78 | writing two adjacent stretches one after the other is one write of both |
| `FatTable.FreeFromExact` | src/fs/fat/fat12.c:29-35 | the list of free entries holds every free entry from a point on, and nothing else, in ascending order |
| `FatTable.FindNextFree` | src/fs/fat/fat12.c:29-35 | the lowest free entry from `from` on, -1 when there is none |
| `FatTable.Allocate` | src/fs/fat/fat12.c:37-56 | succeeds exactly when as many entries are free as the size asks for, and then chains the lowest ones in order; otherwise links every free entry, without an end mark, and fails |
| `FatTable.ChainedWalk` | src/fs/fat/fat12.c:45-55 | a walk from the first cluster of a new chain visits exactly its clusters, and no other entry changed |
| `FatTable.WalkFacts` | src/fs/fat/fat12.c:73-80 | a chain walk ascends strictly, visits only entries in use, and ends at END_OF_FILE, so it terminates |
| `FatTable.WalkFrame` | src/fs/fat/fat12.c:169-177 | a walk depends only on the entries it visits |
| `FatTable.SizeFits` | src/fs/fat/fat12.c:38 | the allocated clusters hold the file exactly when `size + 511` does not wrap around in 32 bits |
| `FatTable.AllocateThenFree` | src/fs/fat/fat12.c:213-224 | freeing the chain just allocated restores the table entry by entry |
| `RootDir.CompFileName` | src/fs/fat/fat12.c:136-143 | the loop accepts exactly what `Matches` says |
| `RootDir.MatchesExactly` | src/fs/fat/fat12.c:136-143 | a name is accepted exactly when it agrees, character by character, with the first eight characters of the query, or with all of a shorter one |
| `RootDir.NeverConfused` | src/fs/fat/fat12.c:136-143 | two names that differ within those characters are never both accepted |
| `RootDir.PaddedMatches` | src/fs/fat/fat12.c:114-115 | a slot named by create_file is found by exactly the queries that its padded name begins with |
| `RootDir.PaddedAt` | src/fs/fat/fat12.c:114-117 | a stored name has the characters of the string, and spaces behind its end |
| `RootDir.UnusedFromExactly` | src/fs/fat/fat12.c:124-126 | the slot found is the first one not in use, and none is found exactly when all are in use |
| `RootDir.SlotLayout` | src/fs/fat/fat12.h:14-23 | the 28 bytes of a slot have its fields at the offsets of the C structure, low bytes first |
| `RootDir.FindFile` | src/fs/fat/fat12.c:199-205 | the slot the look-up loops of read_file and delete_file stop at |
| `RootDir.FindIsFirst` | src/fs/fat/fat12.c:156-163 | no slot before the one found matches |
| `RootDir.MatchIsLive` | src/fs/fat/fat12.c:136-143 | a query that is not empty only matches slots in use |
| `RootDir.RootRoundTrip` | src/fs/fat/fat12.c:102-103 | the directory read back from its bytes on the disk is the directory that was written |
| `RootDir.HalfTableLoad` | src/fs/fat/fat12.c:17-22 | loading ENTRIES bytes restores the table exactly when its upper half is free |
| `DataRegion.OverRead` | src/fs/fat/fat12.c:71-83 | how many bytes of the caller's buffer are read: more than `size` exactly when the file ends inside its second or a later sector |
| `DataRegion.NothingWritten` | src/fs/fat/fat12.c:69-83 | for a size at which the number of clusters wraps around nothing is written |
| `DataRegion.FileByteAt` | src/fs/fat/fat12.c:165-181 | where on the disk each byte of a file is |
| `DataRegion.WriteDataSectors` | src/fs/fat/fat12.c:67-86 | the file's own sectors hold the data, the rest of the last one and every other sector are as before, and so is the metadata |
| `DataRegion.WrittenBytes` | src/fs/fat/fat12.c:67-86 | reading along the chain gives back the first `size` bytes of the data |
| `DataRegion.ZeroedSectors` | src/fs/fat/fat12.c:213-223 | the erased chain's sectors are zero, every other sector and the metadata are as before |
| `FileSystem.SaveBoth` | src/fs/fat/fat12.c:94-103 | table and directory regions do not overlap each other or the data region |
| `FileSystem.SaveOrder` | src/fs/fat/fat12.c:229-235 | create_file and delete_file save table and directory in different orders, with the same result |
| `FileSystem.OnDiskLayout` | src/fs/fat/fat12.c:94-103 | each slot and each table entry is at its place on the disk, byte by byte |
| `FileSystemLaws.TakesLowest` | src/fs/fat/fat12.c:40-51 | a new file takes the lowest-numbered free clusters |
| `FileSystemLaws.CreatedExactly` | src/fs/fat/fat12.c:119-129 | a file is created exactly when table and directory have room, in the first slot not in use; the directory is reported full exactly when every slot is in use |
| `FileSystemLaws.CreateStores` | src/fs/fat/fat12.c:114-131 | the new slot holds the characters of name and extension, the attribute, time and size given, and the cluster the file starts at or the stored error code; no other slot changes |
| `FileSystemLaws.FailedLinks` | src/fs/fat/fat12.c:43-52 | without enough clusters the free ones are left linked in ascending order |
| `FileSystemLaws.CreateKeeps` | src/fs/fat/fat12.c:108-134 | a create that finds room keeps the file system consistent: complete, disjoint, ascending chains that cover the entries in use, and a disk that agrees with memory |
| `FileSystemLaws.CreateExactly` | src/fs/fat/fat12.c:122-129 | exactly when create_file keeps it consistent; in the other cases a chain is stranded or a slot points outside the table |
| `FileSystemLaws.CreateHolds` | src/fs/fat/fat12.c:119-133 | the new slot's chain holds the given bytes |
| `FileSystemLaws.CreateLeaves` | src/fs/fat/fat12.c:108-134 | every other file keeps its slot, chain and bytes |
| `FileSystemLaws.DeleteKeeps` | src/fs/fat/fat12.c:196-238 | a delete with a non-empty name keeps the file system consistent |
| `FileSystemLaws.DeletedExactly` | src/fs/fat/fat12.c:199-205 | delete_file takes the first slot whose name is accepted, and changes nothing when there is none |
| `FileSystemLaws.DeleteFreesExactly` | src/fs/fat/fat12.c:213-224 | exactly the entries on the matched file's chain become free, no other entry changes |
| `FileSystemLaws.DeleteSectors` | src/fs/fat/fat12.c:213-235 | exactly the matched file's data sectors are zeroed, and the disk agrees with memory afterwards |
| `FileSystemLaws.DeleteLeaves` | src/fs/fat/fat12.c:196-238 | every other file keeps its slot, chain and bytes |
| `FileSystemLaws.WildDeleteExactly` | src/fs/fat/fat12.c:199-213 | delete_file leaves the table's bounds exactly for an empty name while the first slot is unused |
| `FileSystemLaws.CreateThenDelete` | src/fs/fat/fat12.c:108-238 | creating a file and deleting that slot restores table and directory |
| `FileSystemRuns.FromBlank` | src/fs/fat/fat12.c:29-56 | after any run of creates and deletes from a disk as the build leaves it, whatever its boot and kernel sectors hold, an entry is in use exactly when it lies on a live file's chain, and then on one only |
| `FileSystemRuns.MountBlank` | src/fs/fat/fat12.c:17-27 | FAT12_table_init on such a disk gives the state those runs start from |
| `FileSystemRuns.BootKept` | src/fs/fat/fat12.c:67-106 | no run writes the sectors in front of the table, which hold the boot sector and the kernel |
| `FileSystemRuns.RunKeeps` | src/fs/fat/fat12.c:108-238 | consistency over every run |
| `FileSystemRuns.RunLeaves` | src/fs/fat/fat12.c:108-238 | a file no delete hits survives every run unchanged |
| `FileSystemRuns.ReadsFirstMatch` | src/fs/fat/fat12.c:145-181 | read_file reloads the directory it had, and delivers the bytes of the first matching slot |
| `FileSystemRuns.AlwaysDefined` | src/fs/fat/fat12.c:145-213 | on a consistent file system the slot a query finds has a complete chain or is a blank one, whose chain would start outside the table |
| `FileSystemRuns.RoundTrip` | src/fs/fat/fat12.c:108-181 | a created file is read back byte for byte after any further creates and deletes of other files, if its slot is the first that matches |
| `FileSystemRuns.RoundTripByName` | src/fs/fat/fat12.c:108-181 | the same from the name: any query the padded name begins with finds the file, if no slot in use before it agrees with the query on its first eight characters |
| `FileSystemRuns.RemountTable` | src/fs/fat/fat12.c:24-27 | the table survives a restart exactly when its upper half is free |
| `FileSystemRuns.RemountThenRead` | src/fs/fat/fat12.c:145-181 | after such a restart the first read_file restores the whole state |
| `FileSystemRuns.NulPlacement` | src/fs/fat/fat12.c:178-183 | the NUL is stored at the length of the last sector's part; the printed buffer equals the file exactly for files of one sector, or when the NUL falls on a zero byte |
| `Fat12.Volume.Mount` | src/fs/fat/fat12.c:17-27 | the state after FAT12_table_init: half the table loaded, the directory zeroed; without files on a disk as the build leaves it |
| `Fat12.Volume.WriteDataIntoMemory` | src/fs/fat/fat12.c:67-86 | the loop writes what `WriteData` says, stale `to_write` included |
| `Fat12.Volume.CreateFile` | src/fs/fat/fat12.c:108-134 | the new state and the outcome are those of `Create`, on all paths up to an access outside the table |
| `Fat12.Volume.DeleteFile` | src/fs/fat/fat12.c:196-243 | the new state and the outcome are those of `Delete`, up to a walk that would start outside the table |
| `Fat12.Volume.ReadChain` | src/fs/fat/fat12.c:165-181 | the chain walk fills the buffer with the file's bytes |
| `Fat12.Volume.ReadFile` | src/fs/fat/fat12.c:145-194 | the new state and the outcome are those of `Read`, up to a walk that would start outside the table, and the buffer handed to print is `PrintBuffer` |
| `HeapTable.InOneRun` | src/memory/heap/heap.c:95-111 | in a well-formed table each taken block lies in exactly one allocation |
| `HeapTable.RunBlocks` | src/memory/heap/heap.c:98-110 | only the first block of an allocation is FIRST; with several blocks every one, the last included, carries HAS_NEXT |
| `HeapTable.RunsDisjoint` | src/memory/heap/heap.c:95-111 | allocations do not overlap |
| `HeapTable.SearchExactly` | src/memory/heap/heap.c:61-89 | the search is right exactly when a long enough run exists or the last block is taken; otherwise it returns a free tail that is too short |
| `Heap.TailExample` | src/memory/heap/heap.c:61-89 | with only the last block free, a request for two blocks is given that one |
| `HeapTable.MallocKeeps` | src/memory/heap/heap.c:95-111 | marking a free run keeps the table well formed and makes an allocation of the length asked for |
| `HeapTable.MallocLeaves` | src/memory/heap/heap.c:113-126 | a new allocation shares no block with any other, and leaves it as it was |
| `HeapTable.FreeKeeps` | src/memory/heap/heap.c:140-149 | freeing keeps the table well formed |
| `HeapTable.FreeExactly` | src/memory/heap/heap.c:104-149 | heap_free clears exactly the allocation if and only if it is one block, ends the table, or is followed by a free block |
| `HeapTable.FreeHitsNeighbour` | src/memory/heap/heap.c:107-147 | otherwise the allocation right behind it is lost too |
| `Heap.NeighbourExample` | src/memory/heap/heap.c:95-149 | in a fresh heap two blocks and then one are allocated: freeing the first allocation frees both |
| `HeapTable.FreeUndoesMalloc` | src/memory/heap/heap.c:113-153 | freeing what was just allocated restores the table exactly under that condition |
| `Heap.BlockAddress` | src/memory/heap/heap.c:91-93 | block addresses start at 16 MB, are 4096 apart, aligned, inside the heap, and lead back to their block |
| `Heap.FirstFreedExactly` | src/memory/heap/heap.c:135-138 | which block heap_free starts from, for every 32-bit address: the block of the address inside the heap, block 0 just in front of it, a negative one elsewhere |
| `Heap.BlocksForExactly` | src/memory/heap/heap.c:47-55 | the rounded-up size is enough exactly while rounding up does not wrap around |
| `Heap.MallocTakesLowest` | src/memory/heap/heap.c:113-133 | when a long enough free run exists, the lowest one is taken, aligned and in range |
| `Heap.MallocOutcome` | src/memory/heap/heap.c:61-126 | a block exactly when some run fits, NULL exactly when none does and the last block is taken, and otherwise the free tail, behind which marking would go |
| `Heap.MallocOfNothing` | src/memory/heap/heap.c:95-97 | a request for no bytes returns the free tail's address and marks nothing |
| `Heap.KernelHeap.GetStartBlock` | src/memory/heap/heap.c:61-89 | the scan returns the lowest fitting run, or else the free tail, or failure |
| `Heap.KernelHeap.MarkBlocksTaken` | src/memory/heap/heap.c:95-111 | the marking loop writes the entries of `MarkTaken` |
| `Heap.KernelHeap.Malloc` | src/memory/heap/heap.c:113-133 | one call is a `MallocStep`, up to marking behind the table |
| `Heap.KernelHeap.Free` | src/memory/heap/heap.c:135-153 | for every address: the blocks `MarkFree` says are cleared, or the model stops at a negative block |
| `Heap.TraceKeeps` | src/memory/heap/heap.c:113-153 | the table stays well formed over every run of mallocs and frees |
| `Heap.AllocationSurvives` | src/memory/heap/heap.c:113-153 | an allocation survives every run that does not free it and frees only under the condition above |
| `Frames.MaskIsShift` | src/memory/paging/PMM/pmm.c:40-42 | the bit masks are the shifts of the source |
| `Frames.TakenIsBit` | src/memory/paging/PMM/pmm.c:122-131 | each byte stands for eight frames, its lowest bit for the lowest one |
| `Frames.SameBitmap` | src/memory/paging/PMM/pmm.c:13 | bitmaps that stand for the same set of frames are equal bit for bit |
| `Frames.FillCovers` | src/memory/paging/PMM/pmm.c:56-69 | the fill covers its whole range exactly when it is one frame or passes bit 6 of its first byte |
| `Frames.FilledExactly` | src/memory/paging/PMM/pmm.c:45-89 | nothing before the range or behind the frame that follows it is marked, and when exactly that frame is; of a short range only the first frame |
| `FrameMap.PhysicalFrames.FillFromTo` | src/memory/paging/PMM/pmm.c:27-90 | exactly the frames `Filled` names become marked as far as the bitmap goes, across tail, borrow, body and head, and none is cleared; the code stays in the bitmap exactly for the ranges of `InBounds` |
| `FrameMap.TailFits` | src/memory/paging/PMM/pmm.c:71-89 | `InBounds` says exactly that the last byte touched is one of the bitmap |
| `FrameMap.TopOfMemory` | src/memory/paging/PMM/pmm.c:89 | a range that ends at 4 GB touches the byte behind the bitmap |
| `FrameMap.PhysicalFrames.CollectFiller` | src/memory/paging/PMM/pmm.c:54-69 | when the filler loop stops early, and the borrow it makes from the whole bytes otherwise |
| `FrameMap.PhysicalFrames.ManualPrefill` | src/memory/paging/PMM/pmm.c:92-98 | the frames below 2 MB, the heap and everything up to 132 MB become marked, and two frames too many |
| `FrameMap.PhysicalFrames.constructor` | src/memory/paging/PMM/pmm.c:100-108 | the bitmap after start-up, frame by frame |
| `FrameMap.PhysicalFrames.GetFreePhysicalAddress` | src/memory/paging/PMM/pmm.c:111-134 | the lowest free frame is marked and no other; failure changes nothing |
| `FrameMap.FrameIntFacts` | src/memory/paging/PMM/pmm.c:132-133 | the failure code is no frame's address, and the 32-bit int converts back exactly |
| `FrameMap.CalcFramesExactly` | src/memory/paging/PMM/pmm.c:16-20 | the number of frames is the size rounded up, and -1 for the largest size |
| `FrameMap.PhysicalFrames.FreePhysicalFrame` | src/memory/paging/PMM/pmm.c:136-142 | exactly that frame is released |
| `FrameMap.LowestIs` | src/memory/paging/PMM/pmm.c:113-128 | the lowest free frame is the free one with no free frame below it |
| `FrameMap.FrameRun` | src/memory/paging/PMM/pmm.c:111-142 | over every run frames handed out are distinct and never below 2 MB or in the heap, and the marked frames that are not handed out stay the same |
| `FrameMap.FrameStep` | src/memory/paging/PMM/pmm.c:111-142 | a take hands out the lowest free frame, a given one is free again, and nothing else changes |
| `FrameMap.FrameNone` | src/memory/paging/PMM/pmm.c:117-119 | with no frame free a take changes nothing |
| `FrameMap.PrefillKept` | src/memory/paging/PMM/pmm.c:92-108 | the bitmap after start-up is a state such runs start from |
| `Paging.OneBlock` | src/memory/heap/heap.c:61-89 | for one block heap_malloc returns the lowest free block or NULL |
| `Paging.SetRefines` | src/memory/paging/paging.c:74-110 | a successful paging_set changes the translation of its page and of no other: address, flags of the page and flags of its table, which are kept or PRESENT, WRITABLE and for all when the table is new |
| `Paging.SetKeeps` | src/memory/paging/paging.c:74-110 | the directory and its tables stay allocated and distinct |
| `Paging.SetPhysical` | src/memory/paging/paging.c:191-207 | the same seen through paging_get_physical, at every address |
| `Paging.PhysicalExactly` | src/memory/paging/paging.c:191-207 | the frame's address for an aligned address that is mapped, 0 for every other one |
| `Vmm.AllocMaps` | src/memory/paging/paging.c:135-156 | for every call: vmm_alloc takes the lowest free frames in order until it has enough or none is left, marks exactly those, maps their pages to them with the caller's flags except where no table could be had, changes no other page, and reports success exactly when it had enough frames |
| `Vmm.TablesStay` | src/memory/paging/paging.c:93-103 | a table that was there stays, with its flags |
| `Vmm.NewTables` | src/memory/paging/paging.c:93-103 | one that had to be found is present, writable and for all |
| `Vmm.FramesForFresh` | src/memory/paging/paging.c:145-149 | those frames were free and are distinct |
| `Vmm.FramesForLength` | src/memory/paging/paging.c:145-149 | as many frames are taken as asked for, or all that are free |
| `Vmm.TablesFound` | src/memory/paging/paging.c:93-103 | each page that got a frame also got a table exactly when the directory entries missing in that stretch are no more than the free blocks of the heap |
| `Vmm.FreeUnmaps` | src/memory/paging/paging.c:158-189 | for every range: free_vmm gives back exactly the frames behind it and unmaps exactly its pages |
| `Vmm.AllocThenFree` | src/memory/paging/paging.c:135-189 | vmm_alloc then free_vmm over an unmapped range restores every translation, across table and 4 GB borders, also when the frames run out; the set of marked frames is restored exactly when no frame was taken, or PRESENT is in the flags and the missing tables are no more than the free blocks |
| `Vmm.FrameLost` | src/memory/paging/paging.c:147-152 | with a full heap and no table for the page, vmm_alloc reports success and its frame stays marked |
| `Vmm.LeakExample` | src/memory/paging/paging.c:147-152 | such a state |
| `AddressSpaces.Mmu.PagingGetIndexes` | src/memory/paging/paging.c:57-72 | the two indexes of an aligned address, -EINVARG otherwise |
| `AddressSpaces.Mmu.PagingSet` | src/memory/paging/paging.c:74-110 | one call does what `Paging.PagingSet` says; 0, -EINVARG for an unaligned address, -NO_MEMORY without a table |
| `AddressSpaces.Mmu.PagingGetPhysical` | src/memory/paging/paging.c:191-207 | the translation of an aligned address, 0 otherwise |
| `AddressSpaces.Mmu.VmmAlloc` | src/memory/paging/paging.c:135-156 | the loop does what `Vmm.VmmAlloc` says, addresses wrapping around at 4 GB |
| `AddressSpaces.PagesForExactly` | src/memory/paging/paging.c:142-143 | the number of pages is the size rounded up, exactly while the sum does not wrap around |
| `AddressSpaces.RangeEndIsLast` | src/memory/paging/paging.c:155 | the result is the address behind the last page |
| `AddressSpaces.Mmu.FreeVmm` | src/memory/paging/paging.c:158-189 | the loop does what `Vmm.FreeVmm` says |
| `AddressSpaces.Mmu.PagingNew4gb` | src/memory/paging/paging.c:14-43 | succeeds exactly when 1026 blocks are free; then 1024 distinct tables in blocks that were free, filled with the identity, every other allocation untouched, and a record that holds the directory's address |
| `KernelDirectory.Identity` | src/memory/paging/paging.c:26-36 | every page maps to itself exactly when the flags include PRESENT; it has the flags given, and its table has them and WRITABLE |
| `AddressSpaces.Mmu.InitPaging` | src/memory/paging/paging.c:14-43 | then paging_get_physical of every page-aligned 32-bit address is that address, and runs of processes can start |
| `AddressSpaces.Mmu.NewProcessDirectory` | src/memory/paging/paging.c:112-133 | the new directory shares the kernel's first 32 entries and has no others |
| `AddressSpaces.Mmu.CreateProcessSpace` | src/process/process.c:67-85 | the memory side of create_process, on success and on every failure path |
| `AddressSpaces.Mmu.FreeProc` | src/process/process.c:124-127 | one stack page and the directory's block are freed |
| `KernelDirectory.BootInv` | src/memory/paging/paging.c:14-43 | the state after start-up satisfies the isolation invariant |
| `Isolation.SharedBelow` | src/memory/paging/paging.c:122-125 | below 128 MB a live process sees what the kernel sees, flags included |
| `Isolation.PrivateAbove` | src/process/process.c:75-82 | above it two mapped pages of live processes never share a frame, and no such frame lies below 2 MB or in the heap |
| `Isolation.MapTouches` | src/memory/paging/paging.c:93-108 | mapping a stack page writes no block but the process's own directory and table |
| `Isolation.MapKeeps` | src/memory/paging/paging.c:145-152 | mapping a private page keeps the invariant |
| `Isolation.CreateKeeps` | src/process/process.c:56-85 | creating a process keeps the invariant, also when it fails half way |
| `Isolation.RetireKeeps` | src/process/process.c:124-127 | freeing a process keeps the invariant |
| `SpaceRuns.LeavesBehind` | src/process/process.c:75-125 | the second stack page of every live process is mapped, and its frame and the stack's page table stay allocated when the process is freed |
| `SpaceRuns.CreateTakes` | src/process/process.c:67-85 | a created process takes three blocks (directory, record with its address, stack table) and the two lowest free frames, mapped writable |
| `SpaceRuns.CreateSucceedsExactly` | src/process/process.c:67-85 | a create succeeds exactly when three blocks and two frames are free |
| `SpaceRuns.FailedCreateCosts` | src/process/process.c:67-85 | what a create that fails has taken by then, and never gives back |
| `SpaceRuns.RetireGives` | src/process/process.c:124-127 | free_proc gives back exactly one frame and one block |
| `SpaceRuns.CreateThenRetire` | src/process/process.c:67-127 | the exact balance of a process: one frame and two blocks, its record and its stack table, are gone |
| `SpaceRuns.RunCosts` | src/process/process.c:56-127 | over every run of successful creates and frees: two frames and three blocks taken for each create, one of each given back for each free |
| `SpaceRuns.CreatesAreBounded` | src/process/process.c:56-127 | however many are freed, twice the number of processes ever created is at most the number of free blocks at the start |
| `SpaceRuns.OtherExactly` | src/memory/heap/heap.c:113-153 | a heap call of somebody else leaves the address spaces intact exactly when no block it clears is one of theirs |
| `SpaceRuns.HarmlessSpares` | src/memory/heap/heap.c:140-149 | which is so when the free does not reach into the next allocation |
| `SpaceRuns.BufferFreesDirectory` | src/fs/fat/fat12.c:168-185 | freeing a buffer of several blocks right before a process's directory frees the directory |
| `SpaceRuns.RunKernel` | src/process/process.c:56-127 | over every run of creation and freeing, with heap calls of others that spare the address spaces, the invariant holds, both stack pages of each live process are mapped and writable, and the kernel's tables are never written |
| `SpaceRuns.Isolated` | src/process/process.c:56-127 | isolation at the end of every such run |
| `Queue.UpOrders` | src/queue/queue.c:10-20 | bubble_up restores heap order |
| `Queue.DownOrders` | src/queue/queue.c:22-40 | bubble_down restores heap order |
| `Queue.RootIsMax` | src/queue/queue.c:62 | the root has the highest priority |
| `Queue.PushKeeps` | src/queue/queue.c:44-50 | a push keeps heap order and adds exactly the new element |
| `Queue.PopKeeps` | src/queue/queue.c:52-60 | a pop keeps heap order and removes exactly the root |
| `Queue.UpStays` | src/queue/queue.c:13-18 | an element moves up only past a lower priority |
| `Queue.DownStays` | src/queue/queue.c:28-34 | and down only past a higher one |
| `Queue.LeftFirst` | src/queue/queue.c:28-38 | of two equal children that are higher the left one moves up |
| `Queue.AmongEquals` | src/queue/queue.c:44-60 | among equal priorities a push puts the element at the end and a pop puts the last one in front |
| `Queue.DrainDescends` | src/queue/queue.c:52-60 | draining the queue yields non-increasing priorities |
| `Queue.DrainPermutes` | src/queue/queue.c:52-60 | and every element once |
| `Queue.PriorityQueue.DoBubbleUp` | src/queue/queue.c:10-20 | the loop in place does what `BubbleUp` says |
| `Queue.PriorityQueue.DoBubbleDown` | src/queue/queue.c:22-40 | the loop in place does what `BubbleDown` says |
| `Queue.PriorityQueue.Push` | src/queue/queue.c:44-50 | the element is added, or dropped when the queue is full, and the array is that of `PushSeq` |
| `Queue.PriorityQueue.Pop` | src/queue/queue.c:52-60 | an element of highest priority leaves the queue, and the array is that of `PopSeq`; nothing on an empty one |
| `Queue.PriorityQueue.Peek` | src/queue/queue.c:62 | an element of highest priority is shown |
| `Scheduler.ReadyIsSmall` | src/queue/queue.c:45-46 | the queue holds at most MAX_PROCS elements, so the silent drop is out of reach |
| `Scheduler.StepKeeps` | src/process/process.c:33-170 | create, start, exit and tick keep the scheduler's invariant |
| `Scheduler.FindSlotExactly` | src/process/process.c:58-63 | the slot found is the first unused one, and none is found exactly when all are used |
| `SchedulerRuns.EventEffect` | src/process/process.c:33-170 | for every event and every process that exists: priority and spinning flag stay, the burst changes only by the slice of a tick the process is charged for, and the process stops being queued or executing exactly when it exits or its burst is used up |
| `SchedulerRuns.CreateEffect` | src/process/process.c:56-113 | only a create fills a slot, the first unused one, with priority 1, burst 400 and a clear spinning flag |
| `SchedulerRuns.Ownership` | src/process/process.c:33-170 | after every run each created process is in exactly one place: queued once and READY, executing, or finished |
| `SchedulerRuns.FinishedStays` | src/process/process.c:33-170 | a finished process never runs again |
| `SchedulerRuns.StartHighest` | src/process/process.c:115-122 | a start with a queue that is not empty gives control to a process no queued one exceeds in priority, otherwise it changes nothing |
| `SchedulerRuns.TickHighest` | src/process/process.c:143-169 | a tick with others waiting gives control to a process no queued one exceeds in priority |
| `SchedulerRuns.ExitHighest` | src/process/process.c:48-51 | so does process_exit |
| `SchedulerRuns.FreedOnce` | src/process/process.c:130-133 | no address space is freed twice |
| `SchedulerRuns.FreedExactly` | src/process/process.c:33-133 | over every run an address space is freed, and then once, exactly when its process leaves by process_exit and a tick comes before the next exit |
| `SchedulerRuns.ZombieFreed` | src/process/process.c:130-133 | a zombie is freed exactly when a tick comes before the next exit |
| `SchedulerRuns.ExitThenFreed` | src/process/process.c:33-52 | the same for the executing process when it exits |
| `SchedulerRuns.LostExample` | src/process/process.c:40 | a run from start-up in which two processes exit between two ticks and only the second is freed |
| `SchedulerRuns.BurstNeverFreed` | src/process/process.c:143-157 | the address space of a process that used up its time is never freed |
| `SchedulerRuns.ZombieLost` | src/process/process.c:40 | nor that of a zombie overtaken by the next exit |
| `SchedulerRuns.SlicesIsCeiling` | src/process/process.c:140-143 | the ticks a process needs are its burst divided by the slice, rounded up |
| `SchedulerRuns.WorkFalls` | src/process/process.c:139-157 | every tick or exit on a non-spinning process lowers the ticks still needed |
| `SchedulerRuns.RunEnds` | src/process/process.c:129-170 | without spinning and new processes, control is back in the kernel within that many ticks, and every process has finished |
| `Process.Kernel.Admit` | src/process/process.c:102-112 | the slot found is filled and queued |
| `Process.Kernel.StartProcesses` | src/process/process.c:115-122 | the new state is that of a Start event |
| `Process.Kernel.ProcessExit` | src/process/process.c:33-52 | the new state is that of an Exit event |
| `Process.Kernel.Tick` | src/process/process.c:129-170 | the new state is that of a Tick event, and the zombie is the one freed |
| `Lifecycle.NextKeeps` | src/process/process.c:56-170 | every create, start, exit, tick and spared heap call keeps: each created process was given an address space of its own, and each that is queued, executing or waiting to be freed still has its directory |
| `Lifecycle.SchedRefines` | src/process/process.c:33-170 | a run of both is a run of the scheduler |
| `Lifecycle.SpacesRefine` | src/process/process.c:56-133 | and a run of the address spaces, in which only finished processes are freed |
| `Lifecycle.SlotsIsolated` | src/process/process.c:56-170 | at the end of every run the queued and executing processes have directories of their own, see the kernel below 128 MB, and share no frame above |
| `Lifecycle.SpaceFreedExactly` | src/process/process.c:33-133 | an address space is still there at the end of a run exactly when its process has not left by process_exit with a tick before the next exit |
| `Processes.System.CreateProcess` | src/process/process.c:56-113 | one Create step of both: the slot, the address space, then the entry in the queue, with every failure path |
| `Processes.System.StartProcesses` | src/process/process.c:115-122 | one Start step of both |
| `Processes.System.ProcessExit` | src/process/process.c:33-52 | one Exit step of both |
| `Processes.System.Tick` | src/process/process.c:129-170 | one Tick step of both: the zombie's address space is freed, then the tick goes on |
| `Spinlock.MoveKeeps` | src/process/spinlock.asm:9-33 | every instruction, call and scheduler event keeps the lock's invariant, if clients release only what they acquired |
| `Spinlock.MutualExclusion` | src/process/spinlock.asm:9-33 | from start-up over every interleaving with such clients at most one process is past the exchange and before the release, the lock word is 1 exactly when there is one, and the spinning flag is set exactly between lines 14 and 22 |
| `Spinlock.SetLockReturns` | src/process/spinlock.asm:9-25 | setLock on a free lock, without interruption, returns: the process is outside and holds the lock, the lock word is 1, its spinning flag is clear and the schedule as before |
| `Spinlock.SetLockWaits` | src/process/spinlock.asm:9-16 | on a taken lock it gets to its loop, marked as spinning and without the lock |
| `Spinlock.TurnAgain` | src/process/spinlock.asm:15-19 | each turn of the loop while the lock is taken leads back to its start and changes nothing but eax |
| `Spinlock.TurnTakes` | src/process/spinlock.asm:15-25 | the turn that finds the lock free leads out of setLock with the lock |
| `Spinlock.LockThenRelease` | src/process/spinlock.asm:9-33 | setLock and then releaseLock restore lock, flags and schedule |
| `Spinlock.SpinnerSurvives` | src/process/process.c:139-143 | a spinning process is not charged or ended by a tick |
| `Spinlock.DeadHolder` | src/process/spinlock.asm:15-19 | a holder that has finished blocks the lock for everybody else, forever |
| `Spinlock.ForeignRelease` | src/process/spinlock.asm:27-33 | releaseLock run by a process that does not hold the lock leaves the lock as it should be exactly when nobody holds it |
| `Spinlock.TwoHold` | src/process/spinlock.asm:9-33 | releasing a lock another process holds and then acquiring it: both hold it |
| `Spinlock.TwoHolders` | src/process/spinlock.asm:9-33 | a run from start-up that ends with two holders |

## Left out

- Port I/O, ATA polling, the PIC, the PIT, the RTC, the keyboard, VGA output, interrupt plumbing and the boot loader: the disk is a device that moves one sector, the time of creation is an input.
- Disk errors and streams on another disk number: the streamer only ever uses disk 0, which does not fail.
- The out pointers of the streamer: Read returns the bytes as a sequence, so overlap of a caller's buffer with other memory is not modelled.
- Failing allocations of streams, of the table and of read_file's buffer, which the code does not check.
- free_file (src/fs/fat/fat12.c:58-65), which nothing calls, and list_files.
- The value of the padding bytes in a directory slot: they are written as zeros and never read.
- Fat12.Volume.CreateFile: stops where the code indexes the table outside its bounds, after storing the error code as a cluster number, and reports that slot.
- Fat12.Volume.DeleteFile: stops where the walk would start outside the table; slots with a chain that starts inside and breaks off, which no run of creates and deletes produces (`AlwaysDefined`), are excluded.
- Fat12.Volume.ReadFile: the same, and it stops for a stored size above 0xFFFFFE00; it ends where print is called.
- Heap.KernelHeap.Malloc: stops where the code would mark entries behind the table and reports the block.
- Heap.KernelHeap.Free: stops where the code would write in front of the table and reports it.
- create_heap and its validation, and the heap's place in memory relative to its table.
- FrameMap.PhysicalFrames.FillFromTo: what is written behind the bitmap is reported and left out; a base or a length of 0xFFFFFFFF, which calc_frames turns into -1, is excluded.
- get_e820_mmap: its calls are further calls of fill_from_to, with inputs from the firmware.
- AddressSpaces.Mmu.PagingNew4gb: stops where the code would go on with a NULL pointer.
- AddressSpaces.Mmu.FreeVmm: the invalidation of the TLB is not modelled.
- Contents of physical frames, such as the first stack frame create_process writes; `PrivateAbove` shows that these frames are not in the heap.
- The frame bitmap and the heap table are objects of their own: that the bitmap itself lies in heap blocks is not modelled. Other users of the heap write only to blocks that belong to no address space.
- Vmm.AllocThenFree: is about ranges that were unmapped before; vmm_alloc over a mapped page forgets its old frame.
- Priorities are fixed while a process is queued: a queue element carries its priority, which the code assigns once, before the push.
- Processes.System.CreateProcess: the stack contents and the PID are not modelled.
- context_switch: it is the step after which the next process runs; saved registers matter only in the lock code.
- process_exit and scheduler are single steps; a tick inside them is not modelled.
- Times are integers; the code uses a float.
- Fairness and progress of spinning processes, which the code does not offer.
