# xv6 with block groups: a Dafny model

An x86 xv6 kernel whose file system is divided into block groups, whose scheduler goes by nice values and
which has a process-info call. The model covers four parts of it.

- Storage. The redo log is a state machine whose steps are the critical sections of `log.c` and its single
  block writes, with a crash possible before each (`logprotocol.dfy`, `logsafety.dfy`, `logreservation.dfy`,
  `logtransaction.dfy`); the code of `log.c` runs on that machine (`log.dfy`). The buffer cache is in `bio.dfy`.
  The file system works on a disk of bytes: geometry and encodings (`geometry.dfy`, `layout.dfy`), who owns which
  block (`ownership.dfy`), the operations (`fssteps.dfy`, `fs.dfy`), what they cost in free blocks
  (`fsledger.dfy`), runs that end badly (`fsruns.dfy`), the quota of `filewrite` (`fsworst.dfy`), the file system
  above the log, after a crash (`fsrecovery.dfy`), and the image builder (`mkfssteps.dfy`, `mkfsledger.dfy`,
  `mkfsdir.dfy`, `mkfs.dfy`).
- Memory. The user-level allocator (`freelist.dfy`, `umalloc.dfy`), and page tables over the page free list
  (`vmpages.dfy`, `vmsteps.dfy`, `vmledger.dfy`, `vm.dfy`, `copyout.dfy`, `vmruns.dfy`).
- Processes. Sleep locks over sleep and wakeup, one spinlock operation at a time (`sleeplock.dfy`), the process
  table (`proctable.dfy`, `proc.dfy`) and pipes (`pipe.dfy`).
- Parsers. The shell's: what it does with tokens (`shellsyntax.dfy`), the grammar of the lines and what they mean
  (`shellgrammar.dfy`), lines as text (`shelltext.dfy`) and the code (`sh.dfy`); and grep's matcher (`grep.dfy`).

Invariants that are passed on whole are functions to `Basics.Claim`, read as `X(...).holds`. Some are wrapped in
a quantifier over an always-true predicate (`Open`, `Look`, `Track`, `Replay`, `Audit`, `Page`, `Paying`); this means the same and
keeps the verifier from looking inside unless the predicate is mentioned.

## Findings

Properties the code does not have on all inputs, each with a run that shows it and the exact condition. The runs
of the file system start from an image that mkfs makes, those of the page tables from any memory that is large enough.

| property | run | condition |
|---|---|---|
| an appending `log_write` within its quota does not panic | `LogReservation.AppendPanics`: fewer than LOGSIZE data blocks in the log, which is what mkfs makes | `LogReservation.ReservationHolds`: with LOGSIZE or more it panics exactly if the header is full, and then only writes that would be absorbed (`LogReservation.AbsorbPanics`) |
| every block in use is metadata or pointed at | `FsRuns.LeakRun`: a byte appended to a file of twelve blocks when one block is left, and the file closed | `FileSystem.Volume.Iput`, `Readi`, `Writei`: exactly if the disk copy of the inode has all its block numbers, which a read inside a transaction breaks exactly if it fills a slot of the inode, and a write to a hole-free file exactly if `CutAtTable` |
| `writei` writes what it answers | `FsRuns.ShortRun`: the same byte | `FileSystem.Volume.Writei`: exactly if the free blocks cover the holes in the range and a missing table |
| a sleeping pipe reader means an empty pipe | `Pipes.Stranded` | `Pipes.Pipe.Write`: broken exactly by a write of more than PIPESIZE bytes that finds the read end closed or itself killed while a reader sleeps |
| a new process is not killed | `Processes.BornKilled` | `Processes.Kernel.Allocproc`, `Kill`, `ForkFails`: the flag is the slot's; a free slot gets it exactly by a kill that hits a free slot or a fork that fails after a kill |
| the user pages match the process size | `VmRuns.ShrinkRun`: a process of one page gives it back | `VirtualMemory.Memory.Growproc`: broken exactly by shrinking to nothing |
| malloc hands out memory it got from sbrk | `Malloc.Oversized` | `Malloc.Allocator.Malloc`: broken exactly if no free block fits and sbrk's 32-bit argument is not the amount needed |
| a block from malloc has room for the request | `Malloc.Wrapped`: 2^32 - 1 bytes get a header and nothing else | `FreeList.UnitsSuffice`: exactly requests of more than 2^32 - 8 bytes have no room |
| `copyout` returns -1 on pages that are not the user's | `VmRuns.FaultRun`: a byte to address 0 of a new address space | `CopyOut.Copyout`: it faults exactly if the first such page has no table |

## Model

| member | source | states |
|---|---|---|
| `LogSafety.RunKeepsInv` | log.c:69-233 | in every run from an image with an empty log, crashes included, the disk, the counters and the operations satisfy the log's invariant |
| `LogSafety.StepKeepsInv` | log.c:69-233 | every enabled step keeps the invariant, a crash or a single block write included |
| `LogSafety.CrashAtomicity` | log.c:69-233 | in every reachable state the header and the log blocks turn the home blocks into exactly the committed writes in order; when no commit or recovery is under way the home blocks are that already and reads see it with the pending writes on top; each operation's writes are committed all or not at all |
| `LogSafety.CommittedOnlyGrows` | log.c:193-202 | what has been committed stays committed, through any crashes and recoveries |
| `LogSafety.RepeatedCrashes` | log.c:116-122 | after a crash, any number of crashes during recovery change nothing committed, and the recovery that completes leaves the home blocks as committed at the first crash |
| `LogSafety.RecoveryCompletes` | log.c:116-122 | left alone, recovery completes after as many steps as there are blocks in the header plus three |
| `LogSafety.LastRest` | log.c:126-202 | what recovery restores is the image the run started from or what the processes saw, with no operation in progress, when a commit was about to write its header |
| `LogSafety.TargetStep` | log.c:193-202 | what recovery would restore changes in one step only, the header write of a commit, and becomes what the processes see |
| `LogTransaction.AllOrNothing` | log.c:126-233 | wherever an operation that is alone in the log has got to, and however often the machine has crashed, recovery restores what there was before it or, once it is committed, exactly that with its writes in order |
| `LogTransaction.GetsThrough` | log.c:126-202 | an operation that logs at most MAXOPBLOCKS different blocks, any number of times, and starts on its own, is committed if nothing crashes |
| `LogReservation.ReservationHolds` | log.c:126-174 | if operations stay within MAXOPBLOCKS, the header plus the unused quotas never exceed LOGSIZE, a commit never overlaps an operation, end_op never panics, and with LOGSIZE data blocks log_write panics exactly if the header is full |
| `LogReservation.FewBlocksThrifty` | log.c:214-233 | operations that log at most MAXOPBLOCKS different blocks each stay within their quotas in every interleaving |
| `LogReservation.AppendPanics` | log.c:217-219 | with fewer data blocks there is a run within all quotas in which an appending log_write panics |
| `LogReservation.AbsorbPanics` | log.c:217-219 | however many data blocks the log has, if any, there is a run within all quotas in which a log_write of a block that is already logged panics |
| `Log.RedoLog.constructor` | log.c:53-66 | a log on an image with an empty header is at the start of a run |
| `Log.RedoLog.LogWrite` | log.c:213-233 | one step of the run; panics exactly if line 218 does; otherwise a block that is not in the header is appended to it, and the buffer is pinned with the new contents |
| `Log.RedoLog.BeginOp` | log.c:125-141 | one step of the run; admitted exactly if no commit is under way and the header has room for one more quota |
| `Log.RedoLog.EndOp` | log.c:145-174 | the last operation out commits, in exactly twice the header's count plus five steps of the run, one for each block write |
| `Log.RedoLog.Leave` | log.c:148-163 | the panic on line 153 is unreachable |
| `Log.RedoLog.Commit` | log.c:192-202 | write_log, write_head, install_trans and the erasing write_head are steps of the run, block by block |
| `Log.RedoLog.WriteLog` | log.c:178-190 | copies every logged block to its slot, one step of the run for each |
| `Log.RedoLog.WriteHead` | log.c:102-113 | the single block write that commits |
| `Log.RedoLog.InstallTrans` | log.c:70-82 | copies every slot to its home, one step of the run for each |
| `Log.RedoLog.ReadHead` | log.c:86-96 | the header in memory is the one on disk |
| `Log.RedoLog.RecoverFromLog` | log.c:115-122 | afterwards the home blocks hold exactly the committed groups |
| `Log.RedoLog.PowerFail` | log.c:69-122 | a crash loses memory and keeps the disk; the run goes on |
| `Log.HeadRead` | log.c:85-113 | the header block read back gives the block numbers written |
| `BufferCache.Cache.constructor` | bio.c:38-56 | binit links all buffers into one cycle, none valid, dirty, referenced or locked; every block is what the disk says |
| `BufferCache.Cache.Bget` | bio.c:61-93 | a hit adds one reference to the buffer for the block and changes nothing else of it; a miss recycles the least recently released clean unreferenced buffer, which is then for the block, not valid, not dirty, not locked and has one reference; no other buffer and no block's contents change; fails exactly if there is neither |
| `BufferCache.Cache.Lock` | bio.c:73-88 | a process with a reference takes the free sleep lock of the buffer |
| `BufferCache.Cache.Victim` | bio.c:78-92 | the backward walk finds the idle buffer released longest ago |
| `BufferCache.Cache.Iderw` | memide.c:38-60 | a dirty buffer is written, an invalid one read, and anything else panics |
| `BufferCache.Cache.Fetch` | bio.c:96-106 | bread's buffer shows the block as every process sees it |
| `BufferCache.Cache.Store` | bio.c:96-106 | the holder's change to the data changes that block for everyone and no other |
| `BufferCache.Cache.Pin` | log.c:231 | a buffer marked dirty stays cached and shows the same block |
| `BufferCache.Cache.Bwrite` | bio.c:109-116 | the disk gets the block as everyone sees it; no visible block changes |
| `BufferCache.Cache.Unlock` | bio.c:120-126 | releasing the sleep lock fails exactly for a process that does not hold it |
| `BufferCache.Cache.Drop` | bio.c:128-140 | the last reference moves the buffer to the front with the newest stamp; the list stays one cycle over all buffers ordered by release |
| `BufferCache.Unlink` | bio.c:132-133 | taking a buffer out leaves one cycle over the others |
| `BufferCache.Push` | bio.c:134-137 | putting it in front gives one cycle again |
| `Geometry.Locate` | fs.c:91-110 | the block balloc finds at a bit has that bit and that bitmap block for bfree |
| `Geometry.Located` | fs.c:158-172 | every block of the groups is found by balloc at exactly one group and bit |
| `Geometry.InodeRegion` | fs.h:62-64 | inode blocks come before the bitmap block of their group |
| `Geometry.BitmapRegion` | fs.h:69-71 | the bitmap block comes between the inode blocks and the data blocks |
| `Geometry.InodeInjective` | fs.h:62-64 | two inodes have different places |
| `Layout.InodeRoundTrip` | fs.c:300-316 | writing one inode into its block makes that inode read back and leaves the others |
| `Layout.InodeFormat` | fs.h:42-49 | type, major, minor and nlink are in two bytes each, low byte first, then size and the thirteen addresses in four |
| `Layout.FreeUndoesAlloc` | fs.c:82-175 | setting the bit of a free block and clearing it again leave every block of the disk as it was |
| `Layout.ViewBit` | fs.c:103-107 | setting or clearing one bit changes the state of one block and nothing else |
| `Layout.ViewInode` | fs.c:300-316 | writing an inode changes that inode and nothing else |
| `Ownership.AttachEntryKeeps` | fs.c:465-477 | hanging a fresh block on an empty table entry keeps every block owned by at most one slot and changes no byte of any file |
| `Ownership.StoreKeeps` | fs.c:589-599 | new contents for one block of a file change the bytes of that file in that block and no other |
| `Ownership.DetachDirectKeeps` | fs.c:495-500 | the block of a direct slot is owned by that slot alone; freeing it keeps ownership |
| `Ownership.DetachTableKeeps` | fs.c:502-513 | a table and the blocks it lists belong to the inode alone; freeing them keeps ownership |
| `Ownership.ForgetKeeps` | fs.c:411-432 | dropping a cached inode keeps ownership and loses only blocks of that inode |
| `FileSystem.Volume.Balloc` | fs.c:82-127 | takes the lowest free block, marks, zeroes and logs it, or returns 0 exactly when every block is in use; no other block of the disk changes |
| `FileSystem.Volume.Bfree` | fs.c:148-175 | panics exactly on a free block; otherwise frees that one block |
| `FileSystem.Volume.Bmap` | fs.c:452-482 | fills only the block's own slot and the table's, changes no byte, keeps ownership, returns 0 only when the disk is full, takes exactly the blocks that were missing, logs at most one bitmap for each, and changes no block it does not log |
| `FileSystem.Volume.Readi` | fs.c:534-558 | returns exactly the file's bytes, holes as zeros, up to its size; allocates nothing in a hole-free file; afterwards the inode's disk copy lacks a block number exactly if the read met an empty slot of the inode and a free block |
| `FileSystem.Volume.Writei` | fs.c:563-606 | overwrites exactly the first t bytes of the range, sets the size to the maximum and changes no other byte, inode or slot; t is everything exactly if there are enough free blocks; the inode's disk copy falls behind exactly if the inode gets a block number and there are not enough free blocks to get past the end of the file; bounds the blocks logged |
| `FileSystem.Volume.WriteBytes` | fs.c:589-600 | the loop writes whole pieces, accounts for every block it takes and stops only when the disk is full |
| `FileSystem.Volume.Iupdate` | fs.c:300-316 | the disk copy of the inode is the cached one |
| `FileSystem.Volume.Itrunc` | fs.c:489-517 | frees exactly the blocks the inode owned, empties it, and changes no other file |
| `FileSystem.Volume.Iget` | fs.c:321-352 | one reference more, in a slot of its own if need be; panics exactly if there is no slot |
| `FileSystem.Volume.Ilock` | fs.c:367-392 | the cached inode is the disk's, loaded if it was not cached; nothing else is cached or changed; panics exactly on a free inode |
| `FileSystem.Volume.Ialloc` | fs.c:274-294 | the lowest free inode from 1 up gets the type and is otherwise zero, and one reference more; succeeds exactly if there is a free inode and a slot for it; no other inode and no byte of any file changes |
| `FileSystem.Volume.Iput` | fs.c:411-432 | the last reference to an inode without links frees it and its blocks; any other last reference forgets the cached copy, which leaks a block exactly if its disk copy lacks a block number |
| `FileSystem.Volume.FreeUnlinked` | fs.c:419-425 | the inode has type 0, size 0 and no blocks, on disk; its blocks are free, and no other inode or file has changed |
| `FileSystem.Volume.WriteChunk` | file.c:136-145 | a chunk of filewrite is a transaction of its own, which has ended; it logs at most MAXOPBLOCKS blocks, whatever groups the blocks come from, and changes no block it does not log |
| `FileSystem.Volume.Filewrite` | file.c:133-153 | every chunk is a transaction, and there are as many of them as the length asks for, up to the first refused one; each has ended, has at most MAXOPBLOCKS blocks, and every block that changed is in one of them; the bytes of all chunks together are one write, and so are the blocks they take; all are written exactly if the file may get that long and there are enough free blocks; the answer is n exactly if the file may get that long and there are enough for all chunks but the last |
| `FsSteps.ChunkFits` | file.c:133 | the bound on the blocks a chunk logs is within MAXOPBLOCKS for every offset |
| `FsSteps.SealedMeans` | file.c:136-151 | what filewrite's transactions are: each has at most MAXOPBLOCKS blocks, and every block that changed is in one of them |
| `WorstCase.ChunkAtWorst` | file.c:133-151 | MAXOPBLOCKS is reached: a chunk appended where the direct blocks end, with at least four free blocks, each in a group of its own, logs exactly that many |
| `WorstCase.WorstRun` | file.c:133-151 | that happens on an image mkfs makes |
| `FsLedger.HoleFreeSaves` | fs.c:588-605 | writing to a hole-free file leaves the inode's disk copy behind exactly if the file ends where the table would begin and one block is left |
| `FsLedger.GrowsPastIs` | fs.c:588-605 | a write makes the file longer exactly if it goes past the end and the free blocks reach that far |
| `FsLedger.ForgetLeaks` | fs.c:411-432 | dropping a cached inode leaks a block exactly if the disk copy lacks one of its block numbers |
| `FsLedger.SettledRead` | fs.c:534-558 | after a read the disk copies have every block number exactly if the read gave the inode none |
| `FsRuns.ReadThenDrop` | fs.c:552 | a read, inside a transaction, and the last iput together leak exactly if the read gave the inode a block number |
| `FsRuns.WriteThenRead` | fs.c:534-606 | readi after writei starts with the bytes that were written, and returns all of them exactly as written if none was cut off |
| `FsRuns.LeakRun` | fs.c:588-605 | a leak: mkfs with one file, twelve blocks written to it, one byte more with one block left, iput |
| `FsRuns.ShortRun` | fs.c:588-605 | in that run writei answers 1 and writes nothing |
| `FsRecovery.RecoveredSane` | log.c:115-122 | on an image with a sound file system, if every group that gets as far as its header write takes a sound file system to a sound one, what recovery leaves is sound with nothing cached, wherever and however often the machine crashed |
| `FsRecovery.ForgetAll` | fs.c:411-432 | a sound file system stays sound when every cached inode is forgotten |
| `FsRecovery.OperationLogged` | log.c:213-233 | an operation that logs what it changes, changes the home blocks as it changes the disk |
| `FsRecovery.CallKeepsSane` | log.c:193-202 | a group that consists of the log_writes of one call keeps the file system sound |
| `FsRecovery.CallOrNothing` | log.c:115-233 | a call that takes one sound disk to another, alone in the log: recovery leaves the one or the other, with a sound file system |
| `FsRecovery.ChunkOrNothing` | file.c:136-145 | the same for a chunk of filewrite, in any order and number of log_writes of its blocks, and with crashes anywhere |
| `Mkfs.Format` | mkfs.c:90-218 | gets through exactly if there are inodes and data blocks for the files and the root directory and none is too long; then the image is a sound file system holding every file's bytes and the root directory's entries, each with its inode number and name, no block is shared or leaked, the free blocks are zero and as many as are left over, no file but the root has a hole, the root has one exactly if its entries fill their blocks, and the kernel reads back the superblock |
| `Mkfs.Image.AllocBlock` | mkfs.c:51-65 | hands out data blocks in strictly increasing order, each free until then |
| `Mkfs.Image.Iappend` | mkfs.c:328-373 | the file is longer by exactly these bytes, no other file changes, and the blocks it takes are those the longer file has more; stops exactly if it gets too long or they are not there |
| `Mkfs.Image.Ialloc` | mkfs.c:273-285 | inodes are handed out in order, empty; stops exactly after the last one |
| `Mkfs.Image.Rinode` | mkfs.c:247-258 | reads the inode as it is on the image |
| `Mkfs.Image.Winode` | mkfs.c:233-245 | writes that inode and changes no file |
| `Mkfs.Image.FixRoot` | mkfs.c:206-211 | rounding up the size of the root leaves its bytes and every other file, and a hole exactly if the entries fill their blocks |
| `RootDirectory.ListingReads` | mkfs.c:168-199 | entry by entry, the root directory has inode 1 as . and .., then the files in order as inodes 2, 3, ..., the number in two bytes, low byte first, the name without a leading underscore, cut or filled with zeros to 14 bytes |
| `RootDirectory.DirentReads` | mkfs.c:196-199 | the inode number, in 16 bits, and the name are read back from an entry |
| `MkfsSteps.NextData` | mkfs.c:51-65 | the next free block is the next data block of this group or the first of the next one |
| `Mkfs.Image.GroupBitmap` | mkfs.c:288-324 | the bits set are the group's metadata and its data blocks below freeblock |
| `Mkfs.Image.WriteBitmaps` | mkfs.c:288-324 | afterwards the bitmaps on disk say exactly what was handed out |
| `MkfsSteps.SuperRoundTrip` | fs.c:31-39 | readsb reads the geometry that mkfs wrote, and every word of the superblock is the field of the struct at that place |
| `MkfsSteps.DefaultGeometry` | mkfs.c:117-142 | the geometry mkfs works out from its constants is one that the kernel can use |
| `MkfsLedger.NeedBlocks` | mkfs.c:328-373 | appending to a file without holes takes as many blocks as the longer file has more, with the indirect table |
| `MkfsLedger.DataInGroups` | mkfs.c:51-65 | there are as many data blocks as groups times blocks per group less metadata |
| `Malloc.Allocator.constructor` | umalloc.c:21-22 | before the first call there is nothing |
| `Malloc.Allocator.Malloc` | umalloc.c:63-90 | hands out a block apart from all others, asks sbrk at most once and only if no free block fits, ends, writes no header inside a block in use, and keeps free plus live units equal to those obtained; without sbrk it is the end of the first block after freep that is large enough, and freep goes to the block before that; sound exactly if it does not starve |
| `Malloc.Allocator.Free` | umalloc.c:24-44 | gives back one block; the list stays ordered, linked into one ring, without touching blocks, and the sum stays; freep goes to the block before it |
| `Malloc.Allocator.Morecore` | umalloc.c:46-61 | what is freed is what sbrk gave exactly if the 32-bit argument is the amount |
| `Malloc.Allocator.Locate` | umalloc.c:30-32 | free's search ends at the block after which the new one belongs |
| `Malloc.Oversized` | umalloc.c:46-61 | a request for 2^31 - 8 bytes breaks the allocator |
| `Malloc.Wrapped` | umalloc.c:69 | a request for 2^32 - 1 bytes gets a block of one unit, its header |
| `FreeList.InsertOk` | umalloc.c:33-42 | putting a block on the list keeps it sorted, linked and without touching blocks, and adds its units |
| `FreeList.UnitsSuffice` | umalloc.c:69 | the block has room for the request, and less than a unit too much, exactly if the 32-bit sum does not wrap; if it does, there is only the header |
| `FreeList.SbrkAsked` | umalloc.c:52-54 | which requests make sbrk's argument the amount morecore goes on to use |
| `VirtualMemory.Memory.constructor` | kalloc.c:31-53 | every page of the range is on the free list once |
| `VirtualMemory.Memory.Kalloc` | kalloc.c:82-95 | takes the first page off the list; none exactly if the list is empty; no mapping changes |
| `VirtualMemory.Memory.Kfree` | kalloc.c:59-77 | puts a page nobody refers to at the head of the list; no other page and no mapping changes |
| `VirtualMemory.Memory.Walk` | vm.c:35-55 | makes a table exactly if there is none and there is a page for it, with the directory entry present, writable and the user's, and no mapping changes |
| `VirtualMemory.Memory.MapUser` | vm.c:60-80 | one user address shows the page; nothing else changes; without a page for the table nothing changes at all |
| `VirtualMemory.Memory.Alloc` | vm.c:221-249 | zeroed pages appear exactly in the new range, or every address space shows what it did and no page is lost; succeeds exactly if the free list has a page for each and for each missing table |
| `VirtualMemory.Memory.Dealloc` | vm.c:255-279 | the loop that skips missing tables ends and unmaps and frees exactly the pages of the range |
| `VirtualMemory.Memory.Free` | vm.c:283-298 | the pages of the directory, its tables and its user memory are on the free list, each once, and no other address space changes |
| `VirtualMemory.Memory.SetupKvm` | vm.c:118-136 | the new directory has exactly the kernel's mappings, page v of a line of kmap at the physical page as far from the line's first as v is, with the line's permissions, and no other; or every page taken is back on the free list; succeeds exactly if there are pages for it and its tables |
| `VmSteps.AsMapped` | vm.c:104-136 | what the loop over kmap has mapped is, page by page, what the lines say |
| `VirtualMemory.Memory.Copy` | vm.c:315-345 | the child shows the same bytes and flags on pages of its own, beside the kernel's mappings, or nothing has changed and every page taken is back; succeeds exactly if there are pages for the directory, its tables and the copy |
| `VirtualMemory.Memory.Growproc` | proc.c:182-205 | zeroed pages appear, or pages go, exactly between the two sizes; the user pages match the size afterwards unless the process shrinks to exactly nothing; says exactly when it answers -1 |
| `VmLedger.PriceFresh` | vm.c:221-249 | what mapping n pages costs in an address space without user tables |
| `VirtualMemory.Memory.Uva2ka` | vm.c:349-360 | faults exactly on a missing table, and otherwise finds the page exactly if it is present and the user's |
| `VmPages.OnePageEach` | vm.c:60-80 | no page is mapped at two user addresses, in one address space or two |
| `CopyOut.Copyout` | vm.c:365-386 | writes exactly the bytes up to the first page that is not the user's, changes no other byte of any address space, returns 0 exactly if there is no such page, and faults exactly if that page has no table |
| `VmRuns.ShrinkRun` | proc.c:182-205 | growproc to nothing answers -1, leaves the size and has freed the page |
| `VmRuns.FaultRun` | vm.c:349-386 | copyout to a new address space faults |
| `SleepLock.RunKeepsInv` | sleeplock.c:22-42 | in every interleaving of any number of processes, with kills, each lock is held by whom the program counters say and no sleeper is forgotten |
| `SleepLock.MutualExclusion` | sleeplock.c:22-42 | at most one process holds the sleep lock |
| `SleepLock.NoLostWakeup` | proc.c:461-518 | whenever the inner spinlock is free, a process asleep or committed to sleep means the sleep lock is held |
| `SleepLock.NeverStuck` | proc.c:461-542 | if nobody can step and ptable.lock is not held from outside, whoever is in the middle of acquiresleep is asleep and some process is using the sleep lock and can release it |
| `Processes.Kernel.constructor` | proc.c:144-178 | userinit's table satisfies the invariant |
| `Processes.Kernel.Schedule` | proc.c:361-402 | dispatches the least nice runnable process, lowest slot on ties; it is running on that CPU and on no channel, nothing else changes, and the invariant is kept |
| `Processes.Kernel.Yield` | proc.c:430-436 | the process becomes runnable and leaves its CPU |
| `Processes.Kernel.Sleep` | proc.c:461-497 | the process sleeps on the channel and leaves its CPU |
| `Processes.Kernel.Wakeup` | proc.c:502-518 | exactly the sleepers on the channel become runnable |
| `Processes.Kernel.Kill` | proc.c:523-542 | the first slot with the pid gets the killed flag and is woken, and nothing else of it or of another changes; -1 exactly if no slot has the pid; leaves a free slot killed exactly if that slot is free |
| `Processes.Kernel.Nice` | proc.c:627-647 | the nice value becomes the priority without its sign, privileged exactly if it was negative, and nothing else changes; -1 exactly if the priority is out of range or no slot has the pid |
| `Processes.Kernel.Allocproc` | proc.c:93-115 | the first free slot gets the next pid, which nobody has had, nice value 0, and keeps its killed flag; none exactly if no slot is free |
| `Processes.Kernel.ForkFails` | proc.c:223-229 | the slot is free again and keeps its pid and its killed flag |
| `Processes.Kernel.ForkCopies` | proc.c:230-234 | the child gets its parent, its parent's nice value and privilege, and nothing else changes |
| `Processes.Kernel.ForkReturns` | proc.c:246-254 | the child becomes runnable, nothing else of it changes, and the answer is its pid |
| `Processes.Kernel.Exit` | proc.c:260-304 | panics exactly for init; the process is a zombie and off its CPU; init inherits exactly the children; exactly those who sleep on the parent, or on init if a zombie is left to it, wake up; nothing else changes |
| `Processes.Kernel.Wait` | proc.c:308-351 | gets a pid exactly if there is a zombie child, the first in the table, whose slot becomes free and whose pid was never reaped before; finds nothing exactly if there is none and the process is killed or childless; sleeps on itself exactly if there is none, it has a child and is not killed |
| `Processes.Kernel.CanAccess` | proc.c:544-553 | ends, and is true exactly for the process itself and its descendants |
| `Processes.BornKilled` | proc.c:93-115 | a run in which a child starts out killed |
| `ProcessTable.ParentLives` | proc.c:260-351 | every zombie and every living process but init has a living parent |
| `ProcessTable.ParentOlder` | proc.c:93-140 | a parent's pid is smaller |
| `ProcessTable.ZombieChildless` | proc.c:284-296 | a zombie has no children |
| `ProcessTable.WaiterMissesNone` | proc.c:281-296 | a process asleep in wait has no zombie child |
| `ProcessTable.OneCpuEach` | proc.c:361-427 | a running process is current on exactly one CPU |
| `ProcessTable.ReapKeeps` | proc.c:326-338 | reaping keeps the invariant, and the pid had not been reaped before |
| `Pipes.Pipe.Write` | pipe.c:78-98 | accepts the bytes in order; sleeps or fails only on a full pipe, and fails exactly if they do not fit and the read end is closed or the writer killed; says exactly when a reader is left asleep |
| `Pipes.Pipe.Read` | pipe.c:100-121 | delivers the oldest bytes; sleeps or fails exactly on an empty pipe whose write end is open |
| `Pipes.Pipe.Close` | pipe.c:59-75 | wakes the other side and frees the pipe with the second end |
| `Pipes.Pipe.constructor` | pipe.c:23-57 | a new pipe is empty, open at both ends, and nobody sleeps |
| `Pipes.Pipe.Kill` | proc.c:523-542 | a killed process no longer sleeps on the pipe |
| `Pipes.CountersTell` | pipe.c:85-106 | the wrapping counters tell empty and full apart |
| `Pipes.PutHolds` | pipe.c:93 | the ring holds exactly the bytes accepted and not delivered |
| `Pipes.Stranded` | pipe.c:86-88 | a run that leaves a reader asleep beside a full pipe |
| `Shell.GetToken` | sh.c:265-308 | the cursor moves over exactly the next token |
| `Shell.Peek` | sh.c:310-320 | moves over whitespace only and looks at the next character |
| `Shell.ParseRedirs` | sh.c:374-397 | reads the redirections ahead, each around the command before it, and fails exactly on one without a file name |
| `Shell.ParseExec` | sh.c:415-446 | makes of the tokens what the grammar says of a simple command or a block, and stops where that ends |
| `Shell.ParseBlock` | sh.c:399-413 | makes of the tokens what the grammar says of a block with its redirections |
| `Shell.ParsePipe` | sh.c:361-372 | makes of the tokens what the grammar says of a pipeline |
| `Shell.ParseLine` | sh.c:344-359 | makes of the tokens what the grammar says of a line, and ends on every line |
| `Shell.NulTerminate` | sh.c:449-493 | puts NULs at exactly the ends of the words |
| `Shell.EndsOutside` | sh.c:265-308 | the end of a token is never inside another |
| `Shell.ParseCmd` | sh.c:327-342 | accepts exactly the lines that are a way to write a command, spaces, symbols without spaces and all interleavings of words and redirections included; returns what they mean, and every word then reads as its token |
| `Shell.Reread` | sh.c:265-493 | every tree with at most nine words to a command, printed with parentheses and spaces only where they are needed, is read back as that tree |
| `ShellGrammar.Parses` | sh.c:344-446 | the parser gets through the tokens with nothing left over exactly if they are those of a line of the grammar, and returns what that line means: redirections in order around the command, pipes to the right, one & or more around what is before them, lists to the right |
| `ShellGrammar.ItemsRead` | sh.c:415-446 | words and redirections in any interleaving give the redirections, in order, around the command with exactly those words |
| `ShellGrammar.PhraseRead` | sh.c:344-446 | every line of the grammar, with pipes, lists, & and blocks to any depth, parses to what it means |
| `ShellGrammar.PhraseFrom` | sh.c:344-446 | whatever the parser accepts is a line of the grammar, and what it returns is what that line means |
| `ShellText.LexRendered` | sh.c:265-308 | a text made of tokens, with whitespace at least where two of them would run together, has exactly those tokens |
| `ShellText.LexGaps` | sh.c:265-308 | every text is made of its tokens in that way |
| `ShellText.Understood` | sh.c:265-446 | the lexer and the parser make a tree of a text exactly if the text is a way to write a line that means the tree |
| `ShellText.RoundTrip` | sh.c:265-446 | the text printed for a tree, with parentheses and spaces only where they are needed, means that tree |
| `Grep.MatchHere` | grep.c:85-96 | true exactly if some prefix of the text, or all of it before a final $, is in the language of what the string spells |
| `Grep.MatchStar` | grep.c:99-106 | true exactly if the rest of the pattern matches after some run of fitting characters |
| `Grep.Match` | grep.c:72-82 | true exactly if what the string spells matches from some start, or from the first for a leading caret |
| `Grep.Reading` | grep.c:85-96 | every string spells exactly one pattern: c for a character, c* for a run of it, a $ at the end |
| `Grep.ReadSpelled` | grep.c:85-96 | a pattern is read back from its spelling |
| `Grep.InCons` | grep.c:85-106 | the language of a pattern, taken apart at its first item |

## Left out

- Log.RedoLog.LogWrite: line 218 looks at the header before log.lock is taken; here that and the append are one step.
- Log.RedoLog.Commit: reads of blocks through the cache during a commit are reads of the pinned buffer or the disk.
- BufferCache.Cache.Lock: only the moment at which the sleep lock is free; SleepLock has the waiting.
- BufferCache.Cache.Bwrite: asks for a buffer that has been read, as every caller has it.
- BufferCache.Cache.Unlock: asks that the holder has logged or written what it changed, as every client of the cache has.
- BufferCache: no guarantee that a buffer is found, since the code panics when none is free; one disk, device 1.
- FileSystem.Volume: bread and log_write are reads and writes of the disk, one operation at a time; FsRecovery says what the log makes of one operation after a crash, but interleavings of two file system operations are not modelled.
- FileSystem.Volume.Readi: taken to be inside a transaction; fileread opens none, and log_write then panics if the read allocates and no other operation is open. A device inode answers with its device number, without a call to the device; so does Writei.
- FileSystem.Volume.Itrunc: no bound on the blocks logged, since the code has none unless there are few groups.
- FileSystem.Volume.Filewrite: for regular files without holes, which writei keeps that way; the offset is a parameter, not the field of an open file; a device goes straight to writei.
- FileSystem.Volume.WriteChunk: the same; writei makes no holes, and mkfs makes one only in the root directory.
- Mkfs.Format: stops where the code would run past the last group or the last inode unchecked; the number of inodes fits a word.
- Malloc.Allocator.Malloc: an sbrk that fails is taken to leave memory as it was; after a request that starves, only that the allocator is no longer sound is claimed.
- VirtualMemory: the contents of a page are one value except in copyout; loading a program, inituvm and clearpteu are left out.
- CopyOut.Copyout: the kernel's mappings are assumed not to have the user flag, which kmap does not set.
- Processes.Kernel: sleep gives up its lock and the CPU in one step (SleepLock has the steps); pids do not wrap; fork's assignment of the parent, outside the lock, is a step of its own.
- Pipes.Pipe: one method is what one process does between getting and giving up the lock; waiting for the CPU in between is not modelled.
- Shell.ParseCmd: running the commands, and file modes of redirections beyond input and output, are left out.
- Link counts and directories: equality of link counts does not hold on a full disk.
- Fairness of the scheduler: the code has none.
- exec, console, device drivers, traps, system call argument checking, spinlock internals, grep's read loop and the other user programs.
