# Verified model of the xv6 kernels

The repository holds variants of the xv6 teaching kernel for RISC-V. This project models the parts of
it whose correctness depends on more than one function, in Dafny, and proves what they promise. To verify
the whole project, run `dafny verify dfyconfig.toml` in this directory.

| part | source | modules |
|---|---|---|
| write-ahead log with group commit | `mp2/kernel/log.c` | `LogFormat`, `Log`, `GroupCommit`, `GroupCommitProof`, `LogClaims`, `LogRuns`, `LogSteps` |
| buffer cache and page swap | `mp2/kernel/bio.c` | `Ring`, `CacheSpec`, `Bio`, `Transparency`, `Swap` |
| user-level allocator | `mp1/xv6/user/umalloc.c` | `Umalloc` |
| frames, Sv39 page tables, user copies | `mp1/xv6/kernel/kalloc.c`, `mp1/xv6/kernel/vm.c` | `Sv39`, `Kalloc`, `PageTable`, `UvmFree`, `UserCopy`, `Spaces` |
| sleep and wakeup, sleeplocks, fork, exit, wait | `mp2/kernel/proc.c`, `mp2/kernel/sleeplock.c` | `Proc`, `ProcInv`, `ProcWait` |
| block allocator and file contents | `mp1/xv6/kernel/fs.c` | `FsBlocks`, `FsSpec`, `Fs` |
| virtio disk driver | `mp1/xv6/kernel/virtio_disk.c` | `Virtio`, `VirtioInv`, `VirtioClaims` |
| regular expressions of grep | `mp1/xv6/user/grep.c` | `Grep`, `GrepLines` |
| command parser of the shell | `mp2/user/sh.c` | `ShGrammar`, `Sh`, `ShTokens`, `ShCmd` |

Code that updates a structure in place is a class with the source's fields (`Bio.BCache`, `Log.Logger`,
`Umalloc.Heap`, `Kalloc.Phys`, `PageTable.UserTable`, `Fs.FileSystem`, `Virtio.Driver`, `Sh.Parser`), and its
methods are proved against functions and predicates on values. What several processes, CPUs or a
device do to each other is a state machine (`Transparency`, `GroupCommit`, `Proc`, `Virtio.System`) whose
steps are the critical sections of the code, or single memory accesses where there is no lock; its
claims are about every run. A kernel panic is a result of its own (`None`, `!ok`, `Panic`), so that the
claims say when it can happen. `LogSteps` and `VirtioClaims.IntrIsRounds` tie methods to the steps of the
machines.

## Model

| member | source | states |
|---|---|---|
| LogFormat.DecodeEncode | mp2/kernel/log.c:87-114 | The header block starts with the count and the block numbers and leaves the other words alone, and what write_head stores, read_head reads back, for every list of at most LOGSIZE block numbers below 2^31. |
| LogFormat.CrashAtomicity | mp2/kernel/log.c:68-203 | Whatever block write of a commit the machine stops after, and however often and wherever the recoveries that follow are interrupted, the last recovery leaves the home blocks all old when the header was not yet written and all new when it was. |
| LogFormat.CrashedRecoveriesAgree | mp2/kernel/log.c:116-123 | Any number of recoveries, each cut off after any of its block writes, leaves an image that still recovers to the same home blocks. |
| Log.Logger.BeginOp | mp2/kernel/log.c:127-142 | begin_op sleeps exactly when a commit runs or ten more blocks for one more operation would not fit, and otherwise counts the operation and nothing else. |
| Log.Logger.EndOp | mp2/kernel/log.c:147-175 | end_op panics exactly when a commit is in progress, and lets exactly the last operation out commit. |
| Log.Logger.LogWrite | mp2/kernel/log.c:215-235 | log_write panics exactly when its guard fires; a block that is already logged is absorbed without a pin, and any other is appended once and its buffer referenced once more, with nothing else changed. |
| Log.Logger.WriteLog | mp2/kernel/log.c:179-191 | write_log changes the disk by one image of the commit's plan per round, also when a round panics, and afterwards every block looks as before but for the log area, which holds the pinned contents. |
| Log.Logger.InstallTrans | mp2/kernel/log.c:69-83 | install_trans changes the disk by one image of the plan per round, copies each log block home, and drops exactly one pin per block when it is not recovering. |
| Log.Logger.WriteHead | mp2/kernel/log.c:103-114 | write_head writes one block, the encoding of the in-memory list over the old header, and nothing else looks different. |
| Log.Logger.ReadHead | mp2/kernel/log.c:87-97 | read_head makes the in-memory list the one on disk and leaves every block as it looked. |
| Log.Logger.Commit | mp2/kernel/log.c:194-203 | commit puts the disk through exactly the images of a commit in the sense of CrashAtomicity, one per block write, whether it ends or panics; when it ends, the list is empty, the pins are gone, and every reader sees the new contents. |
| Log.Logger.RecoverFromLog | mp2/kernel/log.c:117-123 | recover_from_log puts the disk through exactly the images of a recovery, one per block write, also when bget panics, and ends at the recovered image with an empty list; it never panics when no buffer is referenced, as after boot. |
| Log.BootReady | mp2/kernel/log.c:54-65 | Every consistent cache without references over a recoverable image, so what initlog finds, meets what recover_from_log needs. |
| GroupCommitProof.GroupCommitTheorem | mp2/kernel/log.c:125-235 | In every interleaving of operations, cache use, commits, crashes and recoveries, a crash now leaves an image that recovers to the initial home blocks with exactly the durable prefix of the history applied; no operation is torn by that prefix and each in it had ended. |
| LogClaims.DurableGrows | mp2/kernel/log.c:147-203 | What is durable stays durable over every run, crashes included. |
| LogClaims.CommittedWhenDone | mp2/kernel/log.c:147-175 | When the end_op that commits returns, everything that was visible is durable. |
| LogClaims.Reservation | mp2/kernel/log.c:127-175 | In every reachable state the logged blocks and the unused budgets of running operations fit in LOGSIZE, committing implies that no operation runs, every sleeper in begin_op has its condition true, and none sleeps when nothing runs or commits. |
| LogClaims.PinnedNeverRecycled | mp2/kernel/log.c:179-235 | In every reachable state a block that is logged and not yet installed has a valid buffer that bget cannot choose as a victim and that shows its current contents. |
| LogClaims.WithinBudgetPanics | mp2/kernel/log.c:215-225 | In every reachable state log_write by a running operation panics if and only if the list holds LOGSIZE blocks or the log area, less its header, is full; while the operation has budget left, if and only if the log area is full; and when the log area has more than LOGSIZE blocks, only when no budget is left, so that only a block that is logged already can meet the panic within the budget. |
| LogClaims.CommitFindsBuffer | mp2/kernel/log.c:179-191 | In every reachable state, whatever other processes do with the cache, bget of a block that is not cached panics if and only if the blocks that are logged and not yet installed, together with those whose buffer a process holds or awaits, number NBUF; they never number more. |
| LogClaims.CommitAlone | mp2/kernel/log.c:179-191 | With no other user of the cache, a commit gets a buffer for a log block if and only if fewer than NBUF blocks are logged. |
| LogRuns.PanicIsReached | mp2/kernel/log.c:218-221 | With a log area of LOGSIZE blocks, which is what mkfs makes, every start with three processes has a run in which an operation with budget left panics in log_write. |
| LogRuns.AbsorbedPanicIsReached | mp2/kernel/log.c:218-230 | With any log area of at least LOGSIZE blocks, every start with three processes has a run in which an operation holds a block that is logged already and panics in log_write of it. |
| LogRuns.NoBufferIsReached | mp2/kernel/log.c:179-191 | With a larger log area, every start with three processes has a run to a commit of NBUF blocks whose first bget panics. |
| LogRuns.ReaderTakesLastBuffer | mp2/kernel/log.c:179-191 | With the log area that mkfs makes, every start with three processes has a run to a commit of NBUF - 1 blocks in which one reader has asked for one more block, and bget of every log block panics. |
| LogSteps.BeginStep | mp2/kernel/log.c:127-142 | The written begin_op takes the step of the machine that the whole-run claims are about. |
| LogSteps.EndStep | mp2/kernel/log.c:147-175 | The written end_op takes that machine's step, and panics exactly when the machine says that a commit is in progress. |
| LogSteps.LogWriteStep | mp2/kernel/log.c:215-235 | The written log_write panics exactly when the machine's guard says so, and else takes the machine's step. |
| Bio.BCache.constructor | mp2/kernel/bio.c:37-53 | binit leaves one ring over all NBUF buffers, none of them referenced, locked or valid. |
| Bio.BCache.Bget | mp2/kernel/bio.c:59-89 | bget returns the buffer of the block or else the unreferenced buffer nearest to the old end of the list, and panics exactly when there is neither; the list stays a ring. |
| Bio.BCache.Bread | mp2/kernel/bio.c:93-103 | bread returns the only buffer of the block, locked and with the contents that a reader has to see, and no block looks different. |
| Bio.BCache.Brelse | mp2/kernel/bio.c:117-137 | brelse panics exactly when the caller does not hold the lock; the last reference moves the buffer to the recent end of the ring. |
| Transparency.Transparent | mp2/kernel/bio.c:36-151 | In every run of critical sections at most one buffer carries a block, and a held, valid, unchanged buffer shows what the last disciplined holder left, whatever was evicted in between. |
| Transparency.RecyclesLeastRecentlyReleased | mp2/kernel/bio.c:75-87 | In every reachable state a miss takes, of the unreferenced buffers, the one released longest ago. |
| Swap.WritePage | mp2/kernel/bio.c:155-165 | write_page_to_disk makes every reader see the page in the first halves of its eight blocks, and no other block looks different. |
| Swap.ReadPage | mp2/kernel/bio.c:169-177 | read_page_from_disk returns the page that the eight blocks show, and no block looks different. |
| Swap.StartsRuns | mp2/kernel/bio.c:155-165 | Every consistent cache, so also the one that write_page_to_disk leaves, is a state that runs start from. |
| Swap.SwapSurvives | mp2/kernel/bio.c:58-137 | A stored page stays stored over every run in which nobody changes the data of its blocks, whatever is read, pinned or evicted. |
| Swap.ReadBack | mp2/kernel/bio.c:155-177 | The swap round trip: from the state that write_page_to_disk left, after any such run, read_page_from_disk returns exactly the page. |
| Umalloc.PayloadFits | mp1/xv6/user/umalloc.c:69 | The number of units computed for a request is the smallest that holds the header and the payload. |
| Umalloc.SbrkArgument | mp1/xv6/user/umalloc.c:46-58 | sbrk is asked for what malloc needs if and only if the request is at most 2147483616 bytes. |
| Umalloc.StopsAtGap | mp1/xv6/user/umalloc.c:30-32 | On a well-formed cycle the search loop of free stops at the one gap that contains the block, and nowhere else. |
| Umalloc.FreeTiles | mp1/xv6/user/umalloc.c:24-44 | Linking a live block in at its gap, with or without either merge, keeps free and live blocks a tiling of the units from sbrk, in address order and with no two adjacent free blocks. |
| Umalloc.TakeWholeTiles | mp1/xv6/user/umalloc.c:76-77 | Unlinking a free block of the right size keeps the tiling, with that block live. |
| Umalloc.TakeTailTiles | mp1/xv6/user/umalloc.c:78-82 | Cutting the tail off a larger free block keeps the tiling, with the tail live. |
| Umalloc.GrantTiles | mp1/xv6/user/umalloc.c:46-58 | Memory from sbrk above all earlier memory extends the tiling by one block. |
| Umalloc.Heap.Free | mp1/xv6/user/umalloc.c:24-44 | free ends, and takes exactly the given block out of the live ones; the tiling holds and the free list now has a block at least as large. |
| Umalloc.Heap.MoreCore | mp1/xv6/user/umalloc.c:46-61 | morecore adds at least the units asked for to the free list and disturbs no live block. |
| Umalloc.Heap.Malloc | mp1/xv6/user/umalloc.c:63-90 | malloc ends after at most one call of sbrk; it returns null if and only if no free block is large enough and sbrk fails, and otherwise a block that was not live, of exactly the units computed; all other live blocks and the tiling are kept. |
| Sv39.PxInjective | mp1/xv6/kernel/riscv.h:345-348 | Below MAXVA the three 9-bit indices determine the page. |
| Sv39.PxParts | mp1/xv6/kernel/riscv.h:345-348 | Below MAXVA the three indices are the 9-bit digits of the page number, the highest first. |
| Sv39.PteParts | mp1/xv6/kernel/riscv.h:335-340 | PTE2PA and PTE_FLAGS take apart what PA2PTE and the permission bits put together. |
| Sv39.StoreRefines | mp1/xv6/kernel/vm.c:138-157 | Storing a PTE at the place that walk returns changes the translation of that page and of no other. |
| Sv39.AddRefines | mp1/xv6/kernel/vm.c:81-98 | Hanging a zeroed page-table page into an invalid entry changes no translation and keeps the tree unshared. |
| Kalloc.TableRead | mp1/xv6/kernel/vm.c:81-98 | A frame has one content: what is written to it as a page table reads back as that table from its bytes. |
| Kalloc.Phys.constructor | mp1/xv6/kernel/kalloc.c:26-40 | kinit puts every whole page between its bounds on the free list, once each. |
| Kalloc.Phys.Kfree | mp1/xv6/kernel/kalloc.c:46-63 | kfree panics exactly for an address that is not page-aligned or not managed, and else puts the frame in front of the free list and writes to no other frame. |
| Kalloc.Phys.Kalloc | mp1/xv6/kernel/kalloc.c:68-82 | kalloc returns the head of the free list, or null exactly when the list is empty, and writes to no other frame. |
| PageTable.UserTable.Walk | mp1/xv6/kernel/vm.c:80-98 | walk returns the one place of the PTE of a page; it panics exactly at MAXVA and above, fails only for want of a frame or, without alloc, of a table, and never changes a translation. |
| PageTable.UserTable.MapPages | mp1/xv6/kernel/vm.c:133-157 | mappages that ends maps the page of every byte va .. va + size - 1 to the frames from pa's on, with the permissions given, and no other page that was not mapped; it changes no page that was. A panic names a page that was mapped already or lies too high. An empty range, or one past 2^64, ends only when its last byte, modulo 2^64, is in va's page, and then maps that page alone. |
| PageTable.UserTable.UnmapRange | mp1/xv6/kernel/vm.c:159-184 | uvmunmap removes exactly the pages of its range and frees exactly their frames when asked to; it stops with a panic at the first page that is not a mapped leaf. |
| PageTable.UvmCreate | mp1/xv6/kernel/vm.c:186-197 | uvmcreate makes an empty address space out of one free frame, or returns null exactly when there is none. |
| PageTable.UserTable.UvmAlloc | mp1/xv6/kernel/vm.c:215-241 | uvmalloc maps exactly the pages x with oldsz <= x * 4096 < newsz besides those mapped before, each to a frame that was free, all zeros, for the user to read, write and execute; or it returns 0 with every translation as before and every leaf frame given back. Without a panic it writes only to frames that were free and to its own tables. |
| PageTable.UserTable.UvmDealloc | mp1/xv6/kernel/vm.c:243-259 | uvmdealloc unmaps exactly the pages x with newsz <= x * 4096 < oldsz and returns exactly their frames. |
| PageTable.UvmCopy | mp1/xv6/kernel/vm.c:291-325 | uvmcopy gives the child exactly the pages x with x * 4096 < sz, each in a frame that was free, with the parent's bytes and flags; or it fails with the child's translations as before and every leaf frame given back. Neither the parent's pages nor its tables are written to. |
| UvmFree.FreeWalk | mp1/xv6/kernel/vm.c:261-279 | freewalk panics exactly when a leaf is left below the table, and else frees that table and every table below it once each. |
| UvmFree.Free | mp1/xv6/kernel/vm.c:281-289 | uvmfree succeeds if and only if all pages below sz can be unmapped and nothing else is mapped, and then the free list has gained exactly the frames of the pages and of the tables. |
| Spaces.Exchange | mp1/xv6/kernel/vm.c:215-259 | A trade of frames between one address space and the free list keeps free frames, the tables and user pages of all spaces, and the frames of the rest of the kernel a partition of the managed frames. |
| Spaces.Memory.Create | mp1/xv6/kernel/vm.c:186-197 | uvmcreate keeps the partition, and all address spaces and their bytes. |
| Spaces.Memory.Grow | mp1/xv6/kernel/vm.c:215-241 | uvmalloc keeps the partition, whether it succeeds or runs out of memory, changes no table and no byte of any other space and no byte of the pages the space had, and its new pages are exactly those of the new bytes, all zeros; a panic names a page beyond the range or mapped already. |
| Spaces.Memory.Shrink | mp1/xv6/kernel/vm.c:243-259 | uvmdealloc never panics in a partitioned memory; it keeps the partition, all other spaces, and the bytes of the pages that stay. |
| Spaces.Memory.Fork | mp1/xv6/kernel/vm.c:291-325 | uvmcopy into a new space keeps the partition, success or failure, leaves the parent and all other spaces as they were, and the child reads as the parent. |
| Spaces.Memory.Destroy | mp1/xv6/kernel/vm.c:281-289 | uvmfree of a whole address space never panics, returns each of its frames, and keeps the partition and all other spaces. |
| Spaces.Memory.Lend | mp1/xv6/kernel/kalloc.c:68-82 | kalloc by another part of the kernel keeps the partition and every address space. |
| Spaces.Memory.GiveBack | mp1/xv6/kernel/kalloc.c:46-63 | kfree of a frame of the kernel that no space maps keeps the partition and every address space. |
| Spaces.Memory.MapKernel | mp1/xv6/kernel/vm.c:138-157 | Mapping the trampoline or a trapframe above the user pages never panics, and keeps the partition and every user page. |
| Spaces.Memory.UnmapKernel | mp1/xv6/kernel/vm.c:163-184 | Unmapping such a page frees nothing and keeps the partition and every user page. |
| Spaces.Memory.CopyOut | mp1/xv6/kernel/vm.c:344-363 | copyout writes to no page table and to no page of another address space. |
| UserCopy.WalkAddr | mp1/xv6/kernel/vm.c:100-121 | walkaddr returns the frame of a page below MAXVA that is mapped with PTE_U, and 0 for everything else and for frame 0. |
| UserCopy.OutSucceeds | mp1/xv6/kernel/vm.c:344-363 | copyout succeeds if and only if every byte of the range is in a mapped user page. |
| UserCopy.OutOutside | mp1/xv6/kernel/vm.c:344-363 | copyout, successful or not, changes no byte of user memory outside its range when pages do not share frames. |
| UserCopy.OutBytes | mp1/xv6/kernel/vm.c:344-363 | After copyout, successful or not, the user sees the bytes of the source up to the first byte that is not mapped, when pages do not share frames. |
| UserCopy.InAfterOut | mp1/xv6/kernel/vm.c:340-388 | copyin after a successful copyout of the same range returns the same bytes, across any page boundaries. |
| UserCopy.CopyOut | mp1/xv6/kernel/vm.c:344-363 | The loop of copyout computes the copy that OutSucceeds, OutOutside and InAfterOut are about, and leaves all page tables alone when user pages and tables have different frames. |
| UserCopy.CopyIn | mp1/xv6/kernel/vm.c:369-388 | copyin succeeds if and only if every byte of the range is in a mapped user page; it returns the bytes at srcva, srcva + 1 and so on, all len of them or exactly those before the first that is not mapped, and changes no memory of the user. |
| UserCopy.CopyInStr | mp1/xv6/kernel/vm.c:395-431 | copyinstr succeeds if and only if a NUL lies within the first max mapped bytes, has then copied precisely through the first one, and in any case copied only bytes of the range. |
| ProcInv.NextKeeps | mp2/kernel/proc.c:272-568 | Every step of a process, a scheduler or a caller keeps the invariant that the claims below rest on. |
| ProcInv.MutualExclusion | mp2/kernel/sleeplock.c:22-41 | In every interleaving no two processes hold one sleeplock; the test and the set of locked are separate steps, so this rests on the inner spinlock. |
| ProcInv.SleeperMeansLocked | mp2/kernel/sleeplock.c:22-41 | Whenever the inner spinlock is free, a sleeplock that a process sleeps on is locked. |
| ProcInv.SeenByWakeup | mp2/kernel/proc.c:525-568 | No lost wakeup: a process that gave up its condition lock in sleep and was not woken since is seen as SLEEPING on its channel by every wakeup that looks at it. |
| ProcInv.WakeupWakesAll | mp2/kernel/proc.c:555-568 | When wakeup is done, no other process is left asleep on its channel. |
| ProcInv.NoSleepOverZombie | mp2/kernel/proc.c:339-425 | Whenever wait_lock is free, no process asleep in wait has a zombie child. |
| ProcInv.ParentsLive | mp2/kernel/proc.c:272-377 | No slot that is a zombie, unused or still being forked is the parent of any process, and none is its own parent. |
| ProcInv.ReapedByParent | mp2/kernel/proc.c:382-425 | A zombie leaves that state only in the wait of its current parent, which makes the slot unused, and only after the zombie has left its CPU. |
| ProcInv.SchedSafe | mp2/kernel/proc.c:435-488 | In sched a process holds its own lock and no condition lock and is not RUNNING, and an exited process is never switched in again. |
| ProcWait.HaveKids | mp2/kernel/proc.c:388-414 | In every reachable state a scan of wait has seen a child if and only if a slot that it passed belongs to one. |
| ProcWait.WaitDecides | mp2/kernel/proc.c:416-423 | At the end of its scan wait sleeps if and only if the process has a child and was not killed, and returns -1 if and only if it has none or was; none of its children is a zombie then. |
| ProcWait.WaitReturns | mp2/kernel/proc.c:382-425 | wait returns only at the end of a scan or at a zombie child, which it freed or could not report; a woken wait scans again. |
| ProcWait.ParentMoves | mp2/kernel/proc.c:272-425 | The parent of a slot changes only when fork sets it, when the parent exits and the first process takes over, and when the parent frees the zombie. |
| ProcWait.LifeCycle | mp2/kernel/proc.c:104-568 | The state of a slot changes only as the life of a process allows: only the scheduler makes a runnable process run, only a process itself yields, sleeps or exits, a sleeper becomes runnable only by a wakeup on its own channel or by kill, and only its parent frees a zombie. |
| ProcWait.ReturnsWithLock | mp2/kernel/sleeplock.c:22-41 | When acquiresleep is about to return the lock is taken and this process is its holder; when releasesleep is, it is no longer. |
| FsSpec.BitPlace | mp1/xv6/kernel/fs.c:63-86 | A block is in use if and only if bit b % 8 of byte b % 8192 / 8 of its free-map block is set. |
| FsSpec.AllocOk | mp1/xv6/kernel/fs.c:63-86 | Marking and zeroing a free block keeps every file and keeps that a bit of the map is set exactly for blocks that one slot of one inode owns. |
| FsSpec.AssignOk | mp1/xv6/kernel/fs.c:378-391 | Putting a fresh zeroed block in an empty slot of an inode gives it an owner and changes no byte of any file. |
| FsSpec.AssignThroughOk | mp1/xv6/kernel/fs.c:391-402 | The same for a slot of the indirect block. |
| FsSpec.WriteOk | mp1/xv6/kernel/fs.c:494-504 | Writing a data block changes that block of that file only. |
| FsSpec.FreeSlotOk | mp1/xv6/kernel/fs.c:416-421 | Freeing a block of an inode's own slot removes exactly its owner and changes no other file. |
| FsSpec.FreeThroughOk | mp1/xv6/kernel/fs.c:423-433 | The same for a block that the indirect block lists. |
| Fs.FileSystem.Balloc | mp1/xv6/kernel/fs.c:63-86 | balloc takes the lowest free block, marks and zeroes it and nothing else, and panics exactly when all are in use. |
| Fs.FileSystem.Bfree | mp1/xv6/kernel/fs.c:88-103 | bfree panics exactly when the block is free already, and else clears its bit only. |
| Fs.FileSystem.Bmap | mp1/xv6/kernel/fs.c:375-405 | bmap returns ip->addrs[bn] for the first twelve blocks and word bn - 12 of the indirect block for the others, allocating at most that block and the indirect one; it panics exactly at MAXFILE and above or when no block is free. No byte of any file changes and no block loses its owner. |
| Fs.FileSystem.Itrunc | mp1/xv6/kernel/fs.c:407-437 | itrunc releases exactly the blocks that the inode owns, empties the inode, and leaves every other file as it was. |
| Fs.FileSystem.Readi | mp1/xv6/kernel/fs.c:451-477 | readi returns the n bytes from off on, or those up to the end of the file when it ends before; nothing when off is beyond the end or off + n wraps; and -1 if and only if the destination faults before that many bytes. It changes nothing. |
| Fs.FileSystem.Writei | mp1/xv6/kernel/fs.c:479-516 | writei splices the source into the flat byte array and changes no other byte of any file; the size becomes the larger of the old one and the end of the complete chunks (and is kept when balloc panics, which needs a full disk). A source that faults ends it at the last block boundary before the fault; of the chunk that faults the copied bytes are there or not, as its unlogged buffer is kept or not. |
| Fs.ReadsBack | mp1/xv6/kernel/fs.c:451-516 | After a write, reading the same range returns the source, and reading outside the range returns what it did before. |
| Virtio.Driver.AllocDesc | mp1/xv6/kernel/virtio_disk.c:143-154 | alloc_desc takes the lowest free descriptor and fails exactly when none is free. |
| Virtio.Driver.FreeChain | mp1/xv6/kernel/virtio_disk.c:172-185 | free_chain ends on every descriptor table, cyclic ones included, because the second visit of a descriptor panics; ReleaseSafe says that a request's chain is freed whole. |
| Virtio.Driver.Alloc3Desc | mp1/xv6/kernel/virtio_disk.c:187-201 | alloc3_desc takes the three lowest free descriptors or leaves the queue as it was. |
| Virtio.Driver.Submit | mp1/xv6/kernel/virtio_disk.c:203-269 | virtio_disk_rw up to its wait makes the three submission steps of the machine, and sleeps exactly when fewer than three descriptors are free. |
| Virtio.Driver.Intr | mp1/xv6/kernel/virtio_disk.c:282-315 | virtio_disk_intr panics if and only if one of the new entries of the used ring has a non-zero status or no buffer, and else clears the disk flag of exactly the buffers of all new entries and has then seen them all. |
| VirtioClaims.StepKeeps | mp1/xv6/kernel/virtio_disk.c:143-315 | Every step of the driver, its callers and a conforming device keeps the account of where each request is. |
| VirtioClaims.Fifo | mp1/xv6/kernel/virtio_disk.c:257-312 | However long the run and however often the 16-bit indices wrap, the device takes exactly the heads that were offered, in order, and the driver sees exactly those that the device reported, in order. |
| VirtioClaims.Conserved | mp1/xv6/kernel/virtio_disk.c:187-280 | Free descriptors and three per process inside virtio_disk_rw make NUM, at every moment. |
| VirtioClaims.ChainsDisjoint | mp1/xv6/kernel/virtio_disk.c:187-260 | Every request links three distinct descriptors in use, and no other request links any of them. |
| VirtioClaims.CompletesIssuer | mp1/xv6/kernel/virtio_disk.c:282-315 | A round of the interrupt handler panics exactly on an error status, and else clears the disk flag of exactly the buffer whose process issued the request, with buffer and block the same. |
| VirtioClaims.ReleaseSafe | mp1/xv6/kernel/virtio_disk.c:272-280 | A process that finds its buffer no longer owned by the disk frees exactly its three descriptors without a panic. |
| VirtioClaims.OnlyWritesChange | mp1/xv6/kernel/virtio_disk.c:203-280 | A block changes only when the device carries out the write that a process inside virtio_disk_rw asked for, and then holds that process's data. |
| VirtioClaims.RequestServed | mp1/xv6/kernel/virtio_disk.c:203-280 | When virtio_disk_rw's wait ends, buffer and block agree, on what the buffer held when it was a write and on what the block held when it was a read, whatever others did meanwhile. |
| VirtioClaims.NotStuck | mp1/xv6/kernel/virtio_disk.c:271-315 | As long as the disk owns a process's buffer and no error was reported, the driver or the device can take a step. |
| VirtioClaims.IntrIsRounds | mp1/xv6/kernel/virtio_disk.c:282-315 | One call of virtio_disk_intr is a run of the machine's interrupt rounds. |
| VirtioClaims.SectorWraps | mp1/xv6/kernel/virtio_disk.c:206 | The sector number is that of the block if and only if the block number is below 2^31; from there on it starts again at 0. |
| Grep.ParsedExactly | mp1/xv6/user/grep.c:82-94 | Every string is a pattern in exactly one way: items in order, a '*' belonging to the character before it, and a last '$' the end of the text. |
| Grep.Match | mp1/xv6/user/grep.c:70-80 | match ends and returns 1 if and only if the meaning of the pattern (literals, '.', c*, leading '^', trailing '$') holds at the start or, without '^', at some suffix. |
| Grep.MatchHere | mp1/xv6/user/grep.c:82-94 | matchhere returns 1 if and only if the text begins with pieces that fit the items of the pattern, up to its end for a trailing '$'. |
| Grep.MatchStar | mp1/xv6/user/grep.c:96-104 | matchstar returns 1 if and only if some run of the character is followed by a match of the rest. |
| GrepLines.GrepFile | mp1/xv6/user/grep.c:10-34 | However read splits the file, the line loop prints the same text, which is a function of the pattern and the file. |
| GrepLines.PrintsAll | mp1/xv6/user/grep.c:10-34 | For a pattern and a file, that text is exactly the complete lines that match, in order, if and only if no line matches from the first on that holds a NUL or has 1023 characters or more. |
| GrepLines.ShortLines | mp1/xv6/user/grep.c:10-34 | For a file, it is that for every pattern if and only if no complete line holds a NUL or has 1023 characters or more. |
| GrepLines.NulHidesLines | mp1/xv6/user/grep.c:17-33 | In one file with a NUL, a later complete line that matches is not printed. |
| ShTokens.TokensExactly | mp2/user/sh.c:260-308 | The tokens of a line, with whitespace between them, cover it in order, each as long as it can be, and no other sequence of tokens does. |
| ShGrammar.ParsesExactly | mp2/user/sh.c:344-446 | The parser accepts exactly the token sequences of the command language, with the phrase that produces them, so no sequence stands for two. |
| ShTokens.TreeKeepsTokens | mp2/user/sh.c:344-446 | The command of a line has exactly the redirections of its tokens, with their modes and descriptors, the words as arguments and the joins by pipe, semicolon and ampersand, each in the order of the line; so its append redirections are exactly its ">>" tokens. |
| Sh.Parser.GetToken | mp2/user/sh.c:265-308 | gettoken skips whitespace and returns 0 exactly at the end of the line, '+' exactly for ">>", '>' exactly for a '>' not followed by another, each other symbol as itself, and 'a' exactly where a word begins, which it takes up to the next whitespace or symbol; then it skips whitespace again. |
| Sh.Parser.Peek | mp2/user/sh.c:310-320 | peek takes no token and says whether the next one is one of those asked for. |
| Sh.Parser.ParseRedirs | mp2/user/sh.c:374-397 | parseredirs panics exactly when a redirection lacks its file, and else wraps the command in the redirections of the line, in order, and leaves the rest of the tokens. |
| Sh.Parser.ParseExec | mp2/user/sh.c:415-446 | parseexec panics exactly when the tokens do not begin with a simple command or a block of the language, and else builds the tree that the phrase means. |
| Sh.Parser.ParsePipe | mp2/user/sh.c:361-372 | The same for parsepipe. |
| Sh.Parser.ParseLine | mp2/user/sh.c:344-359 | The same for parseline, which ends: each call takes characters or goes down a level of the grammar. |
| ShCmd.NulTerminate | mp2/user/sh.c:448-493 | nulterminate writes a NUL at the end of every token of the tree and changes nothing else. |
| ShCmd.CutReads | mp2/user/sh.c:448-493 | None of those NULs lands inside a token, so every pointer reads as exactly its token's text. |
| ShCmd.ParseCmd | mp2/user/sh.c:327-342 | parsecmd accepts exactly the lines of the command language, returns the tree that the line means, which keeps the redirections, arguments and joins of every sequence of tokens that covers the line, and every argv and file pointer of it then reads as its token; a line that it refuses is left as it was. |

## Findings

Where the code does less than its comments or callers suggest, the model keeps the code's behaviour, and
a member says exactly when.

| finding | where | shown by |
|---|---|---|
| log_write tests for a full log before it looks for the block in the log, and counts the header in the size of the log area. mkfs makes LOGSIZE blocks of it (`mp2/mkfs/mkfs.c:25`), so an operation with budget left can panic: it does if and only if `size - 1` blocks are logged. A block that is logged already needs no space and no budget, and meets the panic if and only if LOGSIZE or `size - 1` blocks are logged, however large the log area. | `mp2/kernel/log.c:218-221` | LogClaims.WithinBudgetPanics, LogRuns.PanicIsReached, LogRuns.AbsorbedPanicIsReached |
| NBUF equals LOGSIZE, every logged block pins a buffer, and readers take buffers too, so a commit may find none for its log blocks. bget of a block that is not cached panics if and only if the logged blocks and those held or awaited number NBUF. With mkfs's log area one reader is enough; with a larger one a full log is. | `mp2/kernel/log.c:179-191`, `mp2/kernel/param.h:10-11` | LogClaims.CommitFindsBuffer, LogRuns.ReaderTakesLastBuffer, LogRuns.NoBufferIsReached |
| write_page_to_disk never reads the blocks it writes, so the second halves get whatever the recycled buffers held. The round trip holds because only first halves are read. | `mp2/kernel/bio.c:155-165` | Swap.WritePage, Swap.ReadBack |
| morecore passes an unsigned product to sbrk's int: requests above 2147483616 bytes ask sbrk for less, or give memory back; the largest asks for one unit. | `mp1/xv6/user/umalloc.c:54` | Umalloc.SbrkArgument, Umalloc.SbrkWraps |
| uvmalloc and uvmcopy that run out of memory keep the page-table pages that they added. The frames are not lost: they belong to the address space and uvmfree returns them. | `mp1/xv6/kernel/vm.c:228-238`, `mp1/xv6/kernel/vm.c:322-324` | Spaces.Memory.Grow, Spaces.Memory.Fork |
| mappages ends normally only when its first page is not above its last one; a range that wraps, or an empty one, runs until it panics or memory runs out. | `mp1/xv6/kernel/vm.c:138-157` | PageTable.UserTable.MapPages |
| copyout looks for PTE_V and PTE_U only and so writes to pages that are mapped without PTE_W. | `mp1/xv6/kernel/vm.c:344-363` | UserCopy.OutSucceeds |
| walkaddr returns 0 both for an unmapped page and for a page in frame 0. | `mp1/xv6/kernel/vm.c:100-121` | UserCopy.WalkAddr |
| writei whose source faults releases a changed block without log_write: the bytes before the fault stay visible only as long as the buffer is not recycled, and the size grows by complete chunks only. | `mp1/xv6/kernel/fs.c:497-501` | Fs.FileSystem.Writei |
| The sector number is `blockno * 2` in 32 bits. | `mp1/xv6/kernel/virtio_disk.c:206` | VirtioClaims.SectorWraps |
| grep prints no line without a newline at its end, and none from the first line on that holds a NUL or has 1023 characters or more, since strchr then finds no newline and read soon has no room. It prints all matching complete lines if and only if none of these matches. | `mp1/xv6/user/grep.c:15-33` | GrepLines.PrintsAll, GrepLines.ShortLines, GrepLines.NulHidesLines |
| exit wakes its parent before it becomes a zombie. This is safe because wait_lock is held until its own lock is, and wait looks under both. | `mp2/kernel/proc.c:360-371` | ProcInv.NoSleepOverZombie |

## Left out

- Block writes are taken as atomic, and the disk as reliable; torn writes inside a block are not modelled.
- Spinlocks are ownership that acquire takes and release gives up in one step; interrupt state, memory fences and the registers that swtch saves are not modelled.
- GroupCommit: installing a block or writing a log block is one step from the moment its two buffers are locked, since nobody else can look at them.
- LogSteps: the commit itself is tied to the machine by the images of LogFormat, not step by step.
- Log.Logger.RecoverFromLog: requires a header with a legal list, which is what every crash leaves by GroupCommitTheorem; a header of another origin is not modelled.
- Bio.BCache.Bread: takes the block's sleeplock as free; waiting for it is in `Transparency` and `Proc`.
- Umalloc.Heap.Malloc: assumes that sbrk hands out memory above everything obtained before, and is stated for the requests for which SbrkArgument shows that sbrk is asked for enough.
- Umalloc.Heap.Free: is stated for live blocks; the source has no check for other pointers.
- Umalloc, Kalloc and PageTable hold headers, tables and pages in maps from addresses to values; the source's pointer casts are not modelled, but a frame has one content that is seen as table or as bytes.
- Kalloc: the bytes 1 and 5 that kfree and kalloc fill a frame with are modelled as contents that nobody relies on.
- Spaces: growproc's and fork's conversion of sizes to uint, and userinit's uvminit, are not modelled; Spaces.Memory.Destroy is called after proc_freepagetable has unmapped the trampoline and the trapframe.
- PageTable.UvmCopy: is stated for a parent and a child that share no frame, which the partition of `Spaces` gives.
- Proc: pids, exit statuses, open files and memory are not part of the processes; whether copyout, uvmcopy or a kill check fails is a free choice of each step; kill of oneself is left out.
- Fs works on the blocks as the cache shows them inside one transaction; their durability is the log's. Inodes are their addresses and size; iupdate, iget, directories and paths are not part of this model.
- Fs.FileSystem.Readi: the destination is a number of bytes that can be stored before it faults; either_copyout itself is in `UserCopy`.
- Fs.FileSystem.Writei: the source is a sequence that can be read up to a point; the panic of bread when no buffer is left is not modelled.
- VirtioClaims.NotStuck: says that a step is possible, not that a scheduler takes it; sleeping on `disk.free` and on the buffer, and the interrupt that ends it, are not modelled.
- Virtio: feature negotiation and the device's registers are not modelled.
- GrepLines.GrepFile: a failing read is not modelled, and write always succeeds.
- Sh: memory for nodes never runs out; runcmd, and the reading of lines, are not modelled.
- The page-replacement code of `mp2/kernel/vm.c`, `fifo.c`, `lru.c` and `paging.c`, the user threads of mp1, pipes, the console, exec, system calls and traps are not modelled.
