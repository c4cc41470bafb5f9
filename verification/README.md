# A verified model of a RISC-V xv6 kernel

This project models the stateful cores of an xv6 kernel for RISC-V with a multi-level feedback scheduler, and
of three of its user programs, in Dafny, and proves what each of them is for. Every state that the system
updates in place is a class whose methods are proved against its invariant and against a simple abstract value;
code that runs concurrently is a state machine over lock-protected steps, and its theorems hold in every
interleaving.

| file | models |
|---|---|
| Blocks.dfy | disk blocks and the 32-bit words in them |
| BufferCache.dfy | the buffer cache: a doubly linked LRU list, reference counts, pins |
| CrashRecovery.dfy | what recovery makes of a disk, and crashes of recovery itself |
| WriteAheadLog.dfy | the log over the cache: transactions, commit, group commit, log space |
| PhysicalMemory.dfy | pages, their owners, page-table words and the flat map they stand for |
| VirtualMemory.dfy | the page allocator, walk, mappages, uvmunmap |
| AddressSpace.dfy | growing, shrinking, faulting in and copying user memory |
| ProcessMemory.dfy | a whole address space from creation to release |
| Exec.dfy | building a new image, byte by byte, and rolling it back |
| Population.dfy | many processes' memory side by side, over any history |
| FsModel.dfy | inodes, block addresses and file bytes, as values |
| DiskImage.dfy | where the file system lies on the disk, and what a disk holds of it |
| FileSystem.dfy | the bitmap, bmap, readi, writei, itrunc, iput, filewrite |
| CrashSafety.dfy | whole transactions of the file system through log, cache and disk, with crashes anywhere |
| Processes.dfy | scheduler, preemption, yield, sleep, wakeup, fork, exit, wait, kill on any number of CPUs |
| ProcessRuns.dfy | what calls, interrupts and the scheduler promise over whole runs: who changes what, and why a call returns |
| Mlfq.dfy | tick charging, demotion, the choice of the next process, the exact schedule |
| Virtio.dfy | the split-virtqueue disk driver together with its device |
| Ring.dfy | rings under counters that wrap |
| Pipe.dfy | pipes |
| Umalloc.dfy | the user-level allocator |
| Shell.dfy | the shell's tokens and grammar, as functions of what is left of a line |
| ShellSyntax.dfy | the language of the shell, on texts: how a line is written and what it means |
| ShellParser.dfy | the shell's parser, on a buffer with a cursor |
| Grep.dfy | the pattern matcher and the line loop of grep |
| SetSize.dfy | facts about the sizes of finite sets |
| Division.dfy | facts about quotients and remainders |

## The main results

- **Crash atomicity.** A crash after any disk write of a commit, followed by recoveries that may themselves crash
  any number of times, leaves exactly the old or exactly the new contents of all home blocks
  (`Log.Commit`, `CrashAtomicity`, `RecoveryIsIdempotent`).
- **One latest-contents map.** Cache, pins, log and disk together refine one map from block numbers to contents,
  despite eviction and absorption; the log never overflows for operations inside their allowance.
- **A radix tree is a flat map.** What the hardware reads through three levels of tables is the map that
  `mappages` and `uvmunmap` change at exactly the pages they name; a failing `walk` changes no translation.
- **Pages are conserved and processes are isolated.** Over any history of any number of processes that are created,
  grow, shrink, fault, store, fork, exec and exit in any order, with failures anywhere, every page is accounted for,
  and all are back once the last process is gone; no step of one process changes a translation or a word of another
  (`AnyHistory`, `Take`). After exec, every byte is the one that the program headers say, with their permissions
  (`Kexec`).
- **Memory fails only when it must.** Growing, faulting, fork and exec succeed exactly when the free pages cover the new
  pages and the page tables that are missing for them (`UvmAlloc`, `VmFault`, `UvmCopy`, `ForkStep`, `Kexec`).
- **A file is a byte sequence.** `readi` returns a slice, `writei` splices; every block is owned once and the bitmap
  marks exactly the owned blocks over any run (`Fs.Run`).
- **Files survive crashes.** The file system runs on the log, the log on the cache, the cache on the disk. A crash after
  any disk write of a transaction recovers all files, with the types, device numbers and links of their inodes, as
  before it or as after it (`Transact`). Over a whole run, with crashes of recovery too, the disk ends with the files
  after some first part of the operations, which includes every committed one (`RunCommitted`, `CrashFindsPrefix`), and
  the system can be mounted on it and go on (`Mount`).
- **Processes.** For any number of CPUs and processes and any schedule, with preemption, and with signalling interrupts
  in user mode, in the kernel and on CPUs that run no process: no process on two CPUs, no lost wakeup, no zombie parent,
  no sched panic, no shared process number, no deadlock on locks (`AllRunsSafe`); a signal leaves nobody asleep
  (`SignalReaches`); a kill does not miss its victim (`KillReaches`). A call returns only for a reason: wait after it
  freed a child or saw that there is none, fork after it made a child or looked at every slot, a wait for a condition
  after it saw it true (`WaitReturns`, `ForkReturns`, `AwaitReturns`); an entry of the process table is changed only by
  who may (`StepLegal`).
- **Scheduling.** The exact share of every process after any number of turns on one CPU (`Mlfq.Schedule`); on any
  number, a scheduler passes by every better process before it takes one (`PassEnds`), and levels count ticks
  (`LevelCountsTicks`).
- **Disk driver.** Descriptors stay partitioned, rings are never overwritten, every request is completed exactly
  once, across index wrap and out-of-order completion, and a finished request has moved what it was for.
- **Pipes, malloc, the shell, grep.** FIFO across counter wrap; an address-ordered coalescing free list that
  partitions the heap, with next fit; a parser that takes a text for a command exactly when the text is a writing of it
  (`ParseIffSays`, `ParseFault`); a matcher that is exactly a declarative language.

## How the model relates to the code

- A lock is exclusive ownership. What one thread does between acquiring a lock and releasing it, or sleeping, is one
  step or a few; any order of the methods whose preconditions hold is an interleaving.
- Panics the code can reach only through misuse are preconditions; panics that are meant to be unreachable are
  proved unreachable.
- Disk writes are atomic and in program order, because `virtio_disk_rw` returns only when the device is done.
- Allocation failure, failing copies, `killed`, what `sbrk` and `read` return, and what the device does next are
  parameters or choices from outside, so the results hold whatever they are.
- A failing copy in `writei` or `readi` is given by how many bytes of the user's buffer can be used: the bytes before
  the first bad one are copied.
- An operation of the file system notes its `log_write`s in order, and `Transact` gives them to the log before `end_op`.
  Until then the log would hold them only in memory.
- Fixed-width arithmetic is written out where it can wrap: 16-bit ring indices, 32-bit pipe counters and file
  offsets, the 32-bit argument of `sbrk`, the 64-bit size in `growproc`.
- `Processes` is a state machine rather than a class: its loops over the process table are interrupted by other CPUs
  after every lock operation, so each program point of a kernel thread is part of the state.

## Model

| member | source | states |
|---|---|---|
| BufferCache.Cache.constructor | kernel/bio.c:35-52 | binit leaves a doubly linked ring through the head that lists all 30 buffers once, last one pushed first, all empty |
| BufferCache.UnlinkKeepsRing | kernel/bio.c:127-128 | the two pointer writes that take a buffer out leave a ring of exactly the other buffers, in their order |
| BufferCache.PushKeepsRing | kernel/bio.c:129-132 | the four pointer writes that put a buffer at the front leave a ring of that buffer followed by the old ring |
| BufferCache.ReleaseKeepsOrder | kernel/bio.c:123-133 | moving a released buffer to the front keeps the list ordered by the time of the last release that reached refcnt zero |
| BufferCache.Cache.MoveToFront | kernel/bio.c:125-133 | the list stays a linked permutation of all buffers in release order, with the buffer now first and its release the latest |
| BufferCache.Cache.Lookup | kernel/bio.c:64-72 | the forward scan returns the buffer that caches the block, and reports a miss only when no buffer does |
| BufferCache.Cache.OldestUnused | kernel/bio.c:74-87 | the backward scan returns the unused buffer whose last release is the oldest of all, and none only when all are in use |
| BufferCache.Cache.Bget | kernel/bio.c:57-88 | a cached block is shared with one more holder; otherwise the unused buffer released longest ago is recycled; no two buffers ever hold the same block of a real device, and every refcnt is holders plus pins |
| BufferCache.Cache.Bread | kernel/bio.c:91-102 | the buffer is locked by the caller and holds the cached contents if valid, the disk contents otherwise |
| BufferCache.Cache.Bwrite | kernel/bio.c:105-111 | exactly one block of the disk changes, to the buffer contents, in one recorded disk step |
| BufferCache.Cache.Brelse | kernel/bio.c:115-136 | one holder fewer; the buffer moves to the front exactly when its refcnt reaches zero; all list and count invariants survive |
| BufferCache.Cache.Bpin | kernel/bio.c:138-144 | one pin more, with refcnt still holders plus pins |
| BufferCache.Cache.Bunpin | kernel/bio.c:146-152 | one pin fewer, with refcnt still holders plus pins |
| CrashRecovery.HeaderRoundTrip | kernel/log.c:86-115 | the words that write_head stores in the header block, read back by read_head, are the same list of block numbers |
| CrashRecovery.InstalledAt | kernel/log.c:66-84 | installing the first t log blocks puts each at its home and changes no other block |
| CrashRecovery.PartialInstallRecovers | kernel/log.c:66-124 | a disk on which installation stopped after any number of blocks recovers to the same home blocks |
| CrashRecovery.RecoversAlike | kernel/log.c:117-124 | what recovery produces depends only on the header, the log blocks it lists and the home blocks it does not list |
| CrashRecovery.ClearedRecovers | kernel/log.c:117-124 | an erased header makes recovery do nothing and keeps every home block |
| CrashRecovery.RecoveryTraceRecovers | kernel/log.c:117-124 | a crash after any disk write of recovery leaves a disk that recovers to the same home blocks |
| CrashRecovery.RecoveryIsIdempotent | kernel/log.c:66-124 | after any number of recoveries that crash anywhere, the first one that completes leaves exactly the home blocks of the first disk and an empty log |
| WriteAheadLog.BreadKeeps | kernel/bio.c:91-102 | whether a block is cached, stale or evicted, the buffer bread hands out holds its last logged contents |
| WriteAheadLog.AppendKeeps | kernel/log.c:230-234 | adding a pinned buffer to the log keeps the cache, the pins and the disk in step with the latest-contents map |
| WriteAheadLog.AbsorbKeeps | kernel/log.c:226-230 | logging a block that is in the log already keeps the cache and the disk in step with the latest-contents map |
| WriteAheadLog.CommitPointRecovers | kernel/log.c:194-204 | once the header is on disk, recovery yields the logged contents of every home block |
| WriteAheadLog.EmptyLogRecovers | kernel/log.c:179-192 | log blocks written under an empty header are invisible to recovery |
| WriteAheadLog.InstallPointsRecover | kernel/log.c:66-84 | every disk state during installation recovers to the logged contents |
| WriteAheadLog.ClearPointRecovers | kernel/log.c:194-204 | erasing the header of a fully installed disk loses nothing |
| WriteAheadLog.CrashAtomicity | kernel/log.c:117-124 | from any crash point of commit, however often recovery itself crashes, the completed recovery leaves exactly the old or exactly the new home blocks, and an empty log |
| WriteAheadLog.TraceIsRecovery | kernel/log.c:66-124 | the disk writes of installation followed by the header erasure are the writes of recovery, one for one |
| WriteAheadLog.RoomBounds | kernel/log.c:127-143 | the room an operation has left is within what is reserved for all outstanding operations |
| WriteAheadLog.LogSpaceLeft | kernel/log.c:127-236 | over all interleavings, an operation inside its allowance of MAXOPBLOCKS finds a free log entry, and the reservation still covers the others |
| WriteAheadLog.NoOperations | kernel/log.c:53-63 | with no operation outstanding the log space invariant holds |
| WriteAheadLog.Log.constructor | kernel/log.c:53-63 | a new log has nothing pending and sees the disk as the latest contents |
| WriteAheadLog.Log.Read | kernel/bio.c:91-102 | bread under the log returns the last logged value of the block despite eviction |
| WriteAheadLog.Log.WriteLog | kernel/log.c:179-192 | every log slot holds the logged contents of its block; no home block and no header is written on the way |
| WriteAheadLog.Log.WriteHead | kernel/log.c:103-115 | the header on disk lists exactly the pending blocks, in one disk write |
| WriteAheadLog.Log.InstallTrans | kernel/log.c:66-84 | the disk passes through the partial installations one block at a time, ends fully installed, and all pins are gone unless recovering |
| WriteAheadLog.Log.Commit | kernel/log.c:194-204 | a crash after any of its 2n+2 disk writes recovers to the old home blocks before the header write and to the logged ones from it on; no home block is written before the header |
| WriteAheadLog.Log.ReadHead | kernel/log.c:86-98 | the pending list becomes the one in the header on disk |
| WriteAheadLog.Log.RecoverFromLog | kernel/log.c:117-124 | its disk writes are exactly the recovery trace; it ends with the recovered home blocks and an empty header, and the log's invariant then holds for the first time |
| WriteAheadLog.Initlog | kernel/log.c:53-63 | a log opened on any disk with a well-formed header satisfies the invariant, with the interrupted transaction recovered |
| WriteAheadLog.Log.BeginOp | kernel/log.c:127-143 | an operation enters exactly when no commit runs and its full allowance still fits; otherwise it sleeps |
| WriteAheadLog.Log.Modify | kernel/log.c:206-214 | changing a locked buffer is invisible to everyone until log_write |
| WriteAheadLog.Log.FindInLog | kernel/log.c:226-229 | the absorption scan finds the block exactly when it is pending |
| WriteAheadLog.Log.LogWrite | kernel/log.c:215-236 | the latest contents of one block become the buffer; it panics exactly when the log is full, even for an absorbed block; the reservation of the other operations survives exactly when the block is absorbed or the operation is inside its allowance, and then the panic cannot happen |
| WriteAheadLog.Log.EndOp | kernel/log.c:147-165 | the committing panic cannot happen; the last operation out starts the commit, any other wakes the waiters |
| WriteAheadLog.Log.FinishCommit | kernel/log.c:167-175 | the commit has the crash guarantees of commit, leaves home blocks equal to the latest contents, and lets the waiters in |
| PhysicalMemory.PteRoundTrip | kernel/riscv.h:358-369 | the frame address and each flag read back from an entry are the ones put in |
| PhysicalMemory.AddTable | kernel/vm.c:108-113 | hanging a zeroed page below an empty interior entry changes no translation and keeps the ownership of every page |
| PhysicalMemory.StoreLeaf | kernel/vm.c:168 | storing one leaf entry changes exactly that page of the flat map |
| PhysicalMemory.LeafChange | kernel/vm.c:146-213 | replacing a leaf entry while its frames change hands keeps tables, user pages and free pages disjoint |
| PhysicalMemory.MapUser | kernel/vm.c:164-168 | mapping a frame at an unmapped user page gives that page its owner and touches no other |
| PhysicalMemory.UnmapUser | kernel/vm.c:202-211 | unmapping a user page frees exactly the frame its entry names |
| VirtualMemory.StepDown | kernel/vm.c:104-107 | an interior entry is valid exactly when the table below exists, and then points at it |
| VirtualMemory.HardwareSeesLeaf | kernel/vm.c:86-116 | what the Sv39 translation of section 4.4 of the RISC-V Privileged Architecture, version 20211203, reads from memory is the flat map |
| VirtualMemory.SharedEntry | kernel/vm.c:98-116 | two addresses below MAXVA use the same leaf entry exactly when they lie in the same page of the same space |
| VirtualMemory.IndicesDeterminePage | kernel/riscv.h:371-380 | the three 9-bit indices agree exactly when the page numbers do |
| VirtualMemory.Ram.constructor | kernel/kalloc.c:26-31 | before kinit every page is taken and the free list is empty |
| VirtualMemory.Ram.Kalloc | kernel/kalloc.c:68-82 | it returns 0 exactly when the free list is empty, otherwise a page nobody owned, filled with 5s; no translation changes |
| VirtualMemory.Ram.Kfree | kernel/kalloc.c:46-63 | exactly one page becomes free and heads the list, which still threads all free pages once |
| VirtualMemory.Ram.Freerange | kernel/kalloc.c:33-40 | exactly the whole pages inside the range become free |
| VirtualMemory.Ram.Walk | kernel/vm.c:98-116 | it finds the leaf entry of the page; with alloc it fails exactly when fewer pages are free than tables are missing on the path; even then no translation changes and only page-table pages of that space are added; without alloc nothing changes at all |
| VirtualMemory.Ram.MapPages | kernel/vm.c:146-175 | it succeeds exactly when as many pages are free as tables are missing for the named pages, and takes just those; exactly the named pages become mapped to consecutive frames, on failure exactly the first ones |
| VirtualMemory.LackingMore | kernel/vm.c:98-116 | the tables missing for two sets of pages are those missing for the first and those missing for the second once the first are there: so the exact count of one walk adds up over loops of walks |
| VirtualMemory.Ram.UvmUnmap | kernel/vm.c:193-213 | exactly the named pages become unmapped, and with do_free exactly their frames become free |
| AddressSpace.UvmDealloc | kernel/vm.c:248-260 | exactly the pages between the two sizes are unmapped and freed |
| AddressSpace.UvmAlloc | kernel/vm.c:217-242 | it succeeds exactly when the free pages cover the new memory and the tables it lacks; then exactly the pages up to the new size are new zeroed memory; on failure every translation is as before |
| AddressSpace.RollBack | kernel/vm.c:217-242 | undoing a partial growth restores all leaf mappings and frees every frame it took |
| AddressSpace.DenseBound | kernel/vm.c:217-242 | a space whose memory is all backed cannot have more pages than there is RAM |
| AddressSpace.VmFault | kernel/vm.c:454-475 | it returns 0 exactly when the address is not below the size, is mapped, or too few pages are free for the page and its tables; otherwise it maps one zeroed page; no other translation changes |
| AddressSpace.UvmCopy | kernel/vm.c:298-326 | it succeeds exactly when the free pages cover a copy of every mapped page and the tables that the child lacks; the child gets private copies of exactly the mapped pages, with the same flags; on failure it has none; the parent is untouched either way |
| AddressSpace.CopyRollBack | kernel/vm.c:323-325 | undoing a partial copy restores all leaf mappings |
| ProcessMemory.ReleasedUndoes | kernel/vm.c:284-290 | freeing a space returns every page to the owner it had before the space existed |
| ProcessMemory.UvmCreate | kernel/vm.c:179-188 | an empty page table in a page that was free, or 0 exactly when none is |
| ProcessMemory.FreeWalk | kernel/vm.c:264-280 | it frees the table and everything below it and never meets a leaf |
| ProcessMemory.AllLeavesGone | kernel/vm.c:284-290 | after uvmunmap of the whole size no leaf is left for freewalk to meet |
| ProcessMemory.UvmFree | kernel/vm.c:284-290 | all pages of the space, and only those, go back to the free list; other spaces keep their translations and their contents |
| ProcessMemory.ProcPagetable | kernel/proc.c:175-205 | it succeeds exactly when three pages are free; trampoline and trapframe are mapped and nothing else; on failure every page is returned and every other space is as it was |
| ProcessMemory.ProcFreePagetable | kernel/proc.c:209-215 | whatever the space did since it was made, all its pages are free again, and every other space is as it was |
| ProcessMemory.GrowProc | kernel/proc.c:235-254 | growing adds exactly the zeroed pages up to the new size, shrinking frees exactly the pages beyond it; it fails exactly when the new size is above the trapframe or too few pages are free for it, and then every translation is unchanged; a shrink below zero changes nothing; other spaces keep translations and contents |
| ProcessMemory.StillThere | kernel/vm.c:284-290 | a space whose own pages kept their owners is intact after any operation on others |
| Exec.WalkAddr | kernel/vm.c:121-139 | the frame of a valid user page, 0 for everything else, changing nothing |
| Exec.UvmClear | kernel/vm.c:330-339 | the page keeps its frame and loses only user access |
| Exec.LoadSeg | kernel/exec.c:157-177 | byte i of the file is at address va + i for every i below filesz, and every other byte of the image is what it was; it fails exactly on a short read; its panic is unreachable |
| Exec.OverlayBytes | kernel/exec.c:164-174 | of a page into which m bytes were read, the first m are those of the file and the others as they were |
| Exec.FlagsArePerms | kernel/exec.c:16-25 | a page is writable exactly when bit 1 of the header flags is set and executable exactly when bit 0 is; it is valid, readable and the user's in any case |
| Exec.AddSegment | kernel/exec.c:60-78 | the space grows to hold the segment: new pages are zero, the bytes from the file lie over what was there, and no page outside the space moves |
| Exec.AddStack | kernel/exec.c:86-97 | two more zeroed pages, the lower one out of reach of the user; the rest of the image is unchanged |
| Exec.BuildImage | kernel/exec.c:56-145 | it succeeds exactly when every header loads, the arguments fit and the free pages cover the image and its tables; then every byte of the new space is the byte of the last segment that has it, or zero, with the permissions of its header; otherwise every page taken is given back |
| Exec.ImageBytes | kernel/exec.c:60-78 | the words of the image that the loop over the headers builds are, byte by byte, the program |
| Exec.Kexec | kernel/exec.c:27-151 | it succeeds under exactly that condition; on failure the process keeps its space, translation by translation and word by word, and every page taken is returned; on success the new space holds the program byte by byte, the old one is gone, and every other space is as it was |
| Exec.OverlayEnds | kernel/exec.c:164-174 | reading a full page replaces it, reading nothing leaves it |
| Population.Take | kernel/proc.c:107-305 | one step of one process (create, grow, shrink, fault, store, fork, exec, free) does what it is for exactly when its memory is there, keeps every page accounted for and every other process memory exactly as it was, translation by translation and word by word |
| Population.CreateStep | kernel/proc.c:107-147 | a new process gets a trapframe page of its own and a page table, or neither, with every page back where it was |
| Population.FreeStep | kernel/proc.c:154-173 | the trapframe page and every page of the space are free again, and every other process keeps its memory |
| Population.ForkStep | kernel/proc.c:258-305 | there is a child exactly when the free pages cover its trapframe, its tables and a copy of every page that the parent has mapped; it starts with these copies, or no page has moved; the parent and all others are as they were |
| Population.ChildCost | kernel/proc.c:258-305 | what a fork needs does not depend on where the new tables lie: a trapframe, a root with its two special pages, and the copy |
| Population.AnyHistory | kernel/proc.c:107-305 | over any history of any number of processes alive together, each page has its owner from the start or was free then and is free, part of a live space or the trapframe of one; when the last process is gone every page, and so the free set, is as it was |
| Population.FreeAll | kernel/proc.c:154-173 | however a history ends, freeing the processes that are left returns every page to its owner from the start |
| Population.BornAccounts | kernel/proc.c:175-205 | a new space takes its pages from those that were free at the start |
| Population.DiedAccounts | kernel/proc.c:209-215 | freeing one space keeps all pages accounted for by the others |
| Population.SwappedAccounts | kernel/exec.c:27-151 | exchanging one space for another keeps all pages accounted for |
| Population.CopyOfOld | kernel/vm.c:298-326 | what the child gets is what the parent had before the fork began |
| Blocks.PutWordGets | kernel/fs.c:431-437 | writing one 32-bit word of a block changes that word only |
| FsModel.AddressBlock | kernel/fs.c:412-430 | a fresh zeroed block put into an empty direct or indirect slot is owned once; zeroing is what makes a reused indirect block start empty |
| FsModel.EnterBlock | kernel/fs.c:431-439 | a fresh block put into an empty indirect entry is owned once and disturbs no other slot |
| FsModel.ReleaseDirect | kernel/fs.c:456-461 | freeing a direct block releases exactly that slot |
| FsModel.ReleaseEntry | kernel/fs.c:463-469 | each entry of the indirect block is owned until it is freed, and is freed once |
| FsModel.ReleaseIndirect | kernel/fs.c:470-473 | the indirect block is released after its entries, leaving no block owned through it |
| FsModel.WriteBytes | kernel/fs.c:540-552 | filling part of a block writes exactly those bytes of that file and none of any other |
| FsModel.SeenIsReturned | kernel/fs.c:540-551 | after a write whose last copy failed part way, a reader sees just the bytes written exactly when the left-over ones lie beyond the end of the file or are what was there |
| FileSystem.BitOps | kernel/fs.c:74-107 | setting or clearing a bit of a bitmap byte affects that bit only |
| FileSystem.OneBit | kernel/fs.c:74-107 | one bitmap byte update changes the mark of exactly one block |
| FileSystem.Fs.Balloc | kernel/fs.c:67-90 | the lowest free block, now marked and zeroed; 0 exactly when every block is marked |
| FileSystem.Fs.Bfree | kernel/fs.c:93-107 | exactly one mark disappears |
| FileSystem.Fs.Bmap | kernel/fs.c:406-445 | the address of the block, allocating what is missing; ownership and bitmap stay exact, no byte of any file is lost, and it fails only on a full disk |
| FileSystem.Fs.Itrunc | kernel/fs.c:449-477 | the file is empty, exactly its blocks are free again, no other file changes, and "freeing free block" is unreachable; every block it changes is logged, with one bitmap block at most two |
| FileSystem.Fs.Iput | kernel/fs.c:338-364 | dropping the last reference to a file without links frees its blocks and its inode; otherwise only the reference count changes |
| FileSystem.Fs.Readi | kernel/fs.c:495-520 | exactly the requested slice of the byte sequence of the file, or -1 exactly when the destination cannot take all of it, and then the part that fitted has been copied; nothing changes |
| FileSystem.Fs.FileBlock | kernel/fs.c:495-520 | every block below the end of a file is mapped |
| FileSystem.Fs.Writei | kernel/fs.c:529-563 | the first r bytes at the offset are replaced and the length is extended; it is rejected exactly on the three range errors, falls short only on a full disk or at the chunk whose copy fails, and changes no other file; the log gets exactly the r bytes, while a copy that fails part way leaves its bytes in the cached block, where readers of the old length see them |
| FileSystem.Fs.Filewrite | kernel/file.c:148-173 | all bytes or the exact prefix that fitted are in the file, plus what a failing copy left inside a block; it falls short only for the file size limit, a full disk or a failing copy; with one bitmap block no transaction logs more than 7 blocks, below the allowance of 10 |
| FileSystem.ChunkSpans | kernel/file.c:149-157 | 3072 bytes at any offset lie in at most four blocks |
| FileSystem.FaultsInside | kernel/fs.c:540-551 | a copy leaves bytes behind only when the source ends inside a block |
| FileSystem.Fs.Run | kernel/fs.c:338-563 | over any run of writes, truncations and reference drops, ownership and bitmap stay exact, every changed block is logged unless a copy fails inside it, the log holds what it was given, and each step has exactly the effect its result says, on one file and one inode only, of which it changes no other field |
| FileSystem.Fs.Perform | kernel/fs.c:338-563 | each operation has its effect, and what the log has afterwards is exactly the files with the bytes it reported; with one bitmap block it logs at most 7 blocks |
| DiskImage.PutInodeGets | kernel/fs.c:227-243 | after an inode is stored, the shorts at 0, 2, 4 and 6 of its 64 bytes are type, major, minor and nlink, the size is at 8 and the addresses from 12 on; no other inode of the block changes |
| DiskImage.DataLogged | kernel/fs.c:529-563 | log_write of a data block changes what the disk holds exactly at that block |
| DiskImage.BitsLogged | kernel/fs.c:67-107 | log_write of a bitmap block does the same for the free map |
| DiskImage.InodeLogged | kernel/fs.c:227-243 | log_write of an inode block does the same for one inode |
| CrashSafety.FilesInLog | kernel/fs.c:227-563 | what the log was given is on its view of the disk: exactly these files, with the free map that goes with them |
| CrashSafety.SomeUnused | kernel/bio.c:59-89 | while nobody holds a buffer and fewer blocks are pending than there are buffers, bget finds a buffer to recycle |
| CrashSafety.Replay | kernel/log.c:206-236 | the log_writes of one operation inside its allowance all succeed, and the log has them in order |
| CrashSafety.EndAndCommit | kernel/log.c:147-204 | the only operation ends with a commit: each disk write before the header write recovers to the old home blocks, each later one to the new |
| CrashSafety.Transact | kernel/log.c:127-236 | a whole transaction of the file system through log, cache and disk: a crash after any of its disk writes recovers all files with type, numbers and links as before it, or all as the log got them, and never a mixture |
| CrashSafety.RunCommitted | kernel/log.c:127-236 | over any run of transactions every commit is atomic for the files, and once an operation is committed no later crash loses it |
| CrashSafety.CrashFindsPrefix | kernel/log.c:117-124 | whenever the machine stops in a run, and however often again during recovery, the disk ends with the files after the first k operations, k counting at least those committed |
| CrashSafety.Mount | kernel/log.c:53-63 | on any disk that recovers to a whole file system, opening the log and the file system gives a state in which transactions can run, with those files |
| CrashSafety.BootsKeepFiles | kernel/log.c:117-124 | any number of boots that crash in recovery and one that completes it put the files of the crash point on the disk |
| CrashSafety.OneReading | kernel/fs.c:406-447 | a disk holds at most one set of files and attributes of inodes |
| CrashSafety.OneInodeThere | kernel/fs.c:227-243 | the 64 bytes of an inode determine the whole inode when its fields fit |
| Processes.SteppedKeeps | kernel/proc.c:258-612 | a thread that moves, changing only its own entry or one without a CPU, and only locks it may, keeps the lock words exact and every process on at most one CPU |
| Processes.HeldIsOff | kernel/proc.c:384-401 | a process that is not running and whose lock another thread holds is on no CPU |
| Processes.Alone | kernel/proc.c:296-414 | two threads are never both at points that hold the same lock |
| Processes.PickedIsOff | kernel/proc.c:442-457 | a runnable process whose lock the scheduler holds is on no CPU, so it can be switched to |
| Processes.YieldKeeps | kernel/proc.c:494-514 | the lock hand-off of yield across swtch keeps the invariant, wherever in the kernel the thread was when it was preempted |
| Processes.PreemptKeeps | kernel/trap.c:151-180 | a timer interrupt in the kernel, at any point where no lock is held, keeps the invariant, and the thread will come back to that point |
| Processes.InterruptKeeps | kernel/trap.c:182-196 | an interrupt handler that signals a condition, at any point of a thread that holds no lock, keeps the invariant, and the thread will come back to that point |
| Processes.ForkRetKeeps | kernel/proc.c:506-514 | the first step of a new process, releasing the lock its CPU took for it, keeps the invariant |
| Processes.SleepRelKeeps | kernel/proc.c:543-570 | giving up the condition lock with p->lock held is safe: what the sleeper waits for was not there |
| Processes.SleepKeeps | kernel/proc.c:543-570 | every other step of sleep keeps the invariant |
| Processes.CondKilledKeeps | kernel/pipe.c:105-118 | a process that finds itself killed before it sleeps may give up, and the invariant is kept |
| Processes.SignalSetKeeps | kernel/proc.c:572-588 | from the moment a condition becomes true, every sleeper on it is still to be visited by the wakeup that follows |
| Processes.WakeKeeps | kernel/proc.c:574-588 | wakeup moves past a process only when it is not asleep on the channel |
| Processes.ReparentOneKeeps | kernel/proc.c:309-320 | giving a zombie to init keeps a wakeup of init pending |
| Processes.ExitSetKeeps | kernel/proc.c:347-365 | a process becomes a zombie with no children left and its parent not asleep in kwait |
| Processes.ExitKeeps | kernel/proc.c:325-365 | the remaining steps of kexit keep the invariant |
| Processes.WaitKeeps | kernel/proc.c:369-414 | the scan of kwait establishes that no child is a zombie before it sleeps, and that there is no child at all, or none left to wait for, before it returns without one |
| Processes.ReapKeeps | kernel/proc.c:387-399 | freeing a zombie child keeps the invariant |
| Processes.ForkKeeps | kernel/proc.c:107-305 | the steps of allocproc and kfork that leave the slot as it is keep the invariant |
| Processes.ForkSlotKeeps | kernel/proc.c:107-305 | claiming, freeing and readying a slot keep the invariant; no two forks fill the same slot |
| Processes.ForkParentKeeps | kernel/proc.c:296-298 | making the child a child of the forking process keeps every parent alive |
| Processes.KillKeeps | kernel/proc.c:593-612 | kkill keeps the invariant |
| Processes.SchedKeeps | kernel/proc.c:423-464 | every step of a CPU scheduler, between the interrupts it takes at the top of its loop, keeps the invariant |
| Processes.EnterKeeps | kernel/proc.c:430-437 | an interrupt on a CPU whose scheduler has interrupts on keeps the invariant |
| Processes.HandlerKeeps | kernel/trap.c:182-196 | every step of a handler that signals a condition on a CPU without a process keeps the invariant: it skips no sleeper |
| Processes.StepKeeps | kernel/proc.c:258-612 | any step of any CPU, with interrupts at any point of a thread that holds no lock and on CPUs that run no process, and any outcome of allocation and copying, keeps the invariant |
| Processes.BootOk | kernel/proc.c:44-57 | the state after procinit and userinit satisfies the invariant |
| Processes.HandOff | kernel/proc.c:423-514 | whenever p->lock is free, p is RUNNING exactly when one CPU has it as c->proc, and no process is on two CPUs |
| Processes.NoLostWakeup | kernel/proc.c:258-414 | whoever signals, a thread or an interrupt handler on a CPU without a process: whenever wait_lock is free nobody sleeps in kwait with a zombie child, whenever the lock of a condition is free nobody sleeps on it while it is true, and no parent is ever a zombie |
| Processes.SignalReaches | kernel/proc.c:572-588 | when a thread or a handler is done with a signal and still has the lock, no process at all sleeps on that condition |
| Processes.SchedNeverPanics | kernel/proc.c:473-491 | in sched the CPU holds exactly p->lock and the state is no longer RUNNING, so none of its panics can happen |
| Processes.FreedIsOffCpu | kernel/proc.c:384-399 | kwait never frees a process that is still on a CPU |
| Processes.ZombieStays | kernel/proc.c:325-414 | whatever any CPU does, a zombie stays one until its own parent frees it in kwait |
| Processes.PidsStayUnique | kernel/proc.c:90-101 | over any run no two processes have the same number |
| Processes.OthersStay | kernel/proc.c:107-612 | no step of a CPU moves the thread of a process that is not running on it |
| Processes.KillReaches | kernel/proc.c:593-612 | in any run: when kkill(pid) returns, a process that had that number all along is marked as killed and is not asleep, whatever other CPUs did and however often the killer was interrupted or preempted |
| Processes.NoSelfDeadlock | kernel/proc.c:107-612 | no CPU ever waits for a lock it holds itself |
| Processes.NoDeadlock | kernel/proc.c:107-612 | in every reachable state some CPU is not spinning on a lock |
| Processes.BlockedSpins | kernel/proc.c:107-612 | a CPU that waits for a held lock changes nothing; interrupts are off in acquire |
| Processes.UnblockedMoves | kernel/proc.c:107-612 | a CPU that does not wait for a held lock can always take a step, without the help of an interrupt |
| Processes.AllRunsSafe | kernel/proc.c:107-612 | for any number of processes and CPUs and any schedule from boot, with preemption and with signalling interrupts in user mode, in the kernel and on idle CPUs, all the safety properties hold in every state reached |
| ProcessRuns.StepLegal | kernel/proc.c:107-612 | whatever a CPU does, the entry of a process changes only in the ways the kernel has: each change of state, parent, mark, number or level is made by the call that makes it, at the point where it makes it, by a scheduler that wants this priority, or by a wakeup of this channel; a timer tick charges exactly one tick |
| ProcessRuns.LevelCountsTicks | kernel/trap.c:84-102 | over any run, from its allocation on, the level of a process is the one after as many charges as timer ticks hit it in user space |
| ProcessRuns.ScansInOrder | kernel/proc.c:436-457 | a scheduler that looks at a process for one priority has passed by every process for every smaller number, and the earlier ones for this, at the moment it looked at each, whatever other CPUs did meanwhile |
| ProcessRuns.PassEnds | kernel/proc.c:436-457 | a pass of the scheduler ends with a process that is runnable at the priority looked for, all better ones passed by, or back at the top with every process passed by for every priority |
| ProcessRuns.WaitReturns | kernel/proc.c:369-414 | in any run kwait, from its call on, returns only after it freed a zombie child, failed to copy its status out, found itself killed, or saw under wait_lock that it has no child |
| ProcessRuns.ForkReturns | kernel/proc.c:258-305 | in any run kfork, from its call on, returns only after it made a runnable child of its own, ran out of memory, or looked at every slot of the table and found it in use |
| ProcessRuns.AwaitReturns | kernel/proc.c:543-570 | in any run a process that waits for a condition goes on only after it saw it true with the lock held, or found itself killed |
| ProcessRuns.ExitNeverReturns | kernel/proc.c:325-365 | in any run kexit does not return: the thread stays in it until its slot is freed |
| ProcessRuns.TimerYields | kernel/trap.c:151-180 | in any run a timer interrupt, in user space or in the kernel, takes the CPU away: the thread goes on where it was only after it has been runnable |
| ProcessRuns.SignalReturns | kernel/proc.c:572-588 | in any run a signal, sent by a thread or by a handler on top of it, makes the condition true under its lock before the thread goes on |
| ProcessRuns.HandlerReturns | kernel/trap.c:182-196 | in any run a handler on a CPU without a process does the same before the scheduler of that CPU goes on |
| ProcessRuns.KillReturns | kernel/proc.c:593-612 | in any run, from the call of kkill on: when it returns, the process that had the number all along is marked as killed and is not asleep |
| Mlfq.ChargedIsAfter | kernel/trap.c:84-102 | after k charged ticks since allocproc, (priority, ticks) is (0,k), (1,k-5) or (2,k-15) for k below 5, below 15 and from 15 on |
| Mlfq.Pick | kernel/proc.c:436-457 | the scan picks the runnable process of lowest priority number, the first in the table among equals, and none only when there is none |
| Mlfq.ChosenIsTurnee | kernel/proc.c:436-457 | at each point of a run exactly one process can be picked |
| Mlfq.Schedule | kernel/proc.c:436-457 | on one CPU with n fresh, always runnable processes the number of ticks of each after any number of turns is given exactly, whatever yields without a tick come between |
| Mlfq.Fair | kernel/trap.c:84-102 | none gets a 6th tick before all have 5 or a 16th before all have 15, and all are at level 2 exactly from 15n ticks on |
| Ring.WrapSlot | kernel/virtio_disk.c:271-276 | the slot of a wrapped counter is the slot of the count it stands for |
| Ring.WrapEqual | kernel/virtio_disk.c:311-313 | two wrapped counters close to each other are equal exactly when the counts are |
| Ring.RingPush | kernel/virtio_disk.c:271-276 | a new ring entry overwrites none that is still to be consumed |
| Ring.RingPop | kernel/virtio_disk.c:311-313 | the slot of the consumer holds the oldest entry, and the rest of the queue stays |
| Virtio.AtMostTwo | kernel/virtio_disk.c:155-212 | eight descriptors make at most two requests in flight |
| Virtio.Disk.constructor | kernel/virtio_disk.c:61-152 | no request is in flight and all descriptors are free |
| Virtio.Disk.AllocDesc | kernel/virtio_disk.c:155-165 | the lowest free descriptor, now taken, or -1 when none is free |
| Virtio.Disk.Alloc3 | kernel/virtio_disk.c:198-212 | three different free descriptors, or none taken when fewer than three are free |
| Virtio.Disk.Submit | kernel/virtio_disk.c:214-280 | the request is formatted in three descriptors of its own and put last in the avail ring, or nothing changes; descriptors stay partitioned into free ones and disjoint chains |
| Virtio.Disk.PushAvail | kernel/virtio_disk.c:271-276 | the avail index advances at 16 bits and no entry the device has yet to take is overwritten |
| Virtio.Disk.DeviceTake | kernel/virtio_disk.c:271-280 | the device takes the requests in the order they were submitted, each once |
| Virtio.Disk.DeviceComplete | kernel/virtio_disk.c:237-264 | following the descriptors, in any order of completion, the device moves exactly the block of that request between its buffer and the disk; of the requests completed before, exactly those for a block it overwrites are marked as overwritten |
| Virtio.ValuesComplete | kernel/virtio_disk.c:282-323 | a completion keeps every other buffer and, for other blocks, every completed transfer as it was |
| Virtio.Disk.InterruptOne | kernel/virtio_disk.c:311-323 | each used entry completes one request that was not completed before, with status 0 and a buffer that is there |
| Virtio.Disk.Interrupt | kernel/virtio_disk.c:293-326 | exactly the requests in the used ring are completed, their buffers and no others are released, and no other request changes |
| Virtio.Disk.FreeChain | kernel/virtio_disk.c:183-196 | exactly the three descriptors of the request become free |
| Virtio.Disk.Finish | kernel/virtio_disk.c:282-291 | a completed request gives back its descriptors; its buffer holds what the request moved and, unless a later completed write replaced it, so does the disk |
| Virtio.Disk.Modify | kernel/bio.c:104-111 | changing a buffer that has no request in flight disturbs no request |
| Pipe.WrapTests | kernel/pipe.c:88-110 | the full and empty tests on wrapped 32-bit counters mean full and empty |
| Pipe.Pipe.constructor | kernel/pipe.c:22-45 | a new pipe is empty with both ends open |
| Pipe.Pipe.Write | kernel/pipe.c:76-103 | the accepted bytes are appended in order up to the first point where the read end is closed, the writer is killed, the pipe is full or a copy fails, and these decide in this order whether it fails, sleeps or returns the count; sleeping readers keep a reason to sleep exactly unless the writer dies after a byte was stored and before the pipe is full |
| Pipe.Pipe.Read | kernel/pipe.c:105-134 | the bytes read are the next ones accepted, in order: as many as were asked for, are there and can be copied out; it sleeps exactly on an empty pipe whose write end is open, unless killed, fails exactly when killed there or when the first copy fails, and otherwise wakes the writers |
| Pipe.Pipe.Close | kernel/pipe.c:58-74 | the pipe is freed exactly when both ends are closed, and then nobody sleeps on it |
| Pipe.KilledMidWrite | kernel/pipe.c:84-87 | a concrete run in which a reader is left asleep although a byte is there |
| Umalloc.Partition | user/umalloc.c:21-90 | free and live blocks are disjoint and together make up exactly the units obtained from sbrk |
| Umalloc.NoOverlap | user/umalloc.c:24-44 | a live block overlaps neither of its free neighbours |
| Umalloc.InsertAlone | user/umalloc.c:33-43 | a freed block that touches no neighbour becomes a list element of its own |
| Umalloc.InsertUp | user/umalloc.c:33-43 | a freed block joins its upper neighbour |
| Umalloc.InsertDown | user/umalloc.c:33-43 | a freed block joins its lower neighbour |
| Umalloc.InsertBoth | user/umalloc.c:33-43 | a freed block that fills a gap joins both neighbours |
| Umalloc.SbrkExact | user/umalloc.c:52-54 | sbrk, which takes an int, is asked for the right amount exactly when that is below 2^31 bytes, and for less otherwise |
| Umalloc.LinksWhatItGot | user/umalloc.c:46-61 | the units morecore links are the units the program has exactly when the request fits an int: otherwise sbrk gave fewer, or took units back, or, when the break would fall below 0, left everything as it was |
| Umalloc.LargestRequest | user/umalloc.c:63-70 | the largest request asks sbrk for a single unit |
| Umalloc.Heap.constructor | user/umalloc.c:21-22 | the allocator starts with no list |
| Umalloc.Heap.FindSpot | user/umalloc.c:30-32 | the search ends, at the one place in address order where the block belongs |
| Umalloc.Heap.Free | user/umalloc.c:24-44 | the block leaves the live ones and coalesces; the list stays circular, ordered and without adjacent blocks; no unit is lost and no other live block changes; the next search starts at the block below it |
| Umalloc.Heap.Morecore | user/umalloc.c:46-61 | for any size: on success the list has a block that is large enough and exactly the new units are added, and they are units that sbrk returned exactly when the request fits an int; on failure nothing changes |
| Umalloc.Heap.Carve | user/umalloc.c:75-84 | exactly the units asked for leave the free list: the tail of the block, which may be the whole of it |
| Umalloc.Heap.Malloc | user/umalloc.c:63-90 | for any request: a block that was free, large enough and disjoint from all live ones, or null when nothing fits and sbrk fails; morecore is called once exactly when nothing fits; all linked memory is backed by sbrk unless exactly that call was for 2^31 bytes or more; otherwise the block is the next one that fits after the last search, with no unit more than needed |
| ShellParser.GetToken | user/sh.c:271-314 | the token, its text and the cursor behind it are those of the grammar |
| ShellParser.Peek | user/sh.c:316-326 | it skips white space and tells whether the next character is one of the given ones |
| ShellParser.ParseRedirs | user/sh.c:380-403 | it agrees with the grammar on redirections and on the missing-file error |
| ShellParser.ParseArgs | user/sh.c:432-451 | it agrees with the grammar on words and redirections in any order, on the syntax error and on too many arguments |
| ShellParser.ParseExec | user/sh.c:421-452 | it agrees with the grammar on simple commands and blocks |
| ShellParser.ParseBlock | user/sh.c:405-419 | it agrees with the grammar on parentheses and on the missing one |
| ShellParser.ParsePipe | user/sh.c:367-378 | it agrees with the grammar on pipelines |
| ShellParser.ParseBacks | user/sh.c:356-359 | it agrees with the grammar on any number of ampersands |
| ShellParser.ParseLine | user/sh.c:350-365 | it terminates and agrees with the grammar on whole lines |
| Shell.LineShow | user/sh.c:350-452 | the printing of any tree, in front of the end or a closing parenthesis, parses back to the tree and consumes exactly the printing |
| Shell.RoundTrip | user/sh.c:333-452 | for every tree with at most 9 plain words per command, parsing its fully parenthesised printing gives the same tree with nothing left over |
| ShellSyntax.LayoutRead | user/sh.c:271-314 | however tokens are spaced, as long as two words, or an arrow and the next, are kept apart, the text has exactly these tokens |
| ShellSyntax.TokensIffLaid | user/sh.c:271-314 | a text has a given list of tokens exactly when it is those tokens with white space between them |
| ShellSyntax.DressedIsWrap | user/sh.c:380-403 | the redirections of a command, wherever they are written among its words, go around it in the order written, the last one outermost |
| ShellSyntax.ArgsParsed | user/sh.c:432-451 | words and redirections in any order are parsed into all the words and all the redirections, in order |
| ShellSyntax.ArgsRead | user/sh.c:432-451 | and what is parsed as a command was written as such words and redirections |
| ShellSyntax.ScriptParsed | user/sh.c:350-452 | every well-formed line, with blocks, pipelines, any number of ampersands and lists, with and without parentheses, is parsed into its meaning |
| ShellSyntax.ScriptRead | user/sh.c:350-452 | and every line that is parsed is the tokens of a well-formed line with that meaning |
| ShellSyntax.ParseIffSays | user/sh.c:333-365 | a text is taken for a command exactly when it is a writing of a line that means it |
| ShellSyntax.OneMeaning | user/sh.c:333-365 | no text means two commands |
| ShellSyntax.ParseFault | user/sh.c:333-452 | which error a text is refused with, exactly: behind what has been read, where a command is expected, there is an arrow without a file, an open block, a block behind a word or a tenth word, or something follows a whole line |
| ShellParser.NulTerminate | user/sh.c:455-499 | the buffer changes exactly at the ends of the recorded words, in place |
| ShellParser.WordsTerminated | user/sh.c:455-499 | after nulterminate every argument and file string is its own token text: no terminator falls inside a word |
| ShellParser.ParseCmd | user/sh.c:333-348 | the result is the command that the text says, with every word a terminated string of its own in the buffer; it panics exactly when the text says none, for a reason that the text gives, and then the buffer is as it was |
| Grep.Match | user/grep.c:72-82 | true exactly when some start position, only 0 after a caret, has a prefix in the language of the pattern |
| Grep.MatchHere | user/grep.c:84-97 | true exactly when the text can be cut into pieces that the items of the pattern describe, up to the end after a final dollar |
| Grep.MatchStar | user/grep.c:99-108 | true exactly when some run of the repeated character is followed by a match of the rest |
| Grep.StarFirst | user/grep.c:99-108 | a leading star item means: some number of fitting characters, then the rest |
| Grep.OneFirst | user/grep.c:92-95 | a leading single item means: one fitting character, then the rest |
| Grep.Scan | user/grep.c:22-30 | every complete line in the buffer, up to a NUL, is matched once, and the rest is kept |
| Grep.LinesOf | user/grep.c:22-30 | the lines that grep looks at are the one way to write its input as short lines without NUL and a rest that starts with none |
| Grep.LinesSplit | user/grep.c:22-30 | and every input can be written so |
| Grep.Run | user/grep.c:11-35 | however read cuts the input, exactly the matching lines are printed, in order, up to the first line that holds a NUL or does not fit the buffer |

## Left out

- The kernel page table and its direct map, `copyin`, `copyout` and `copyinstr`: plumbing over `walk`.
- Assembly, control registers, traps other than tick charging, spinlock internals and memory fences: `swtch` is a
  control-transfer step and a lock is exclusive ownership.
- Path lookup, directories, `ialloc`, link counts and the inode table: `Iput` takes the reference count and the valid
  flag of its table entry as arguments.
- Other devices than the root disk in the cache: the cache itself is modelled for any device, the log above it for one.
- Running out of buffers: `bget`'s panic is excluded by a precondition, since the number of buffers equals the log size.
- The signed `n` below zero in `filewrite`, which writes nothing and returns -1.
- The `xstate` and `name` fields of a process, and overflow of process numbers.
- Locks that cover several wait channels, such as the lock of a pipe: in `Processes` each condition has its own lock,
  which admits every order of steps that a shared lock does. The pipe itself is modelled with one lock in `Pipe`.
- Lasting fairness: the schedule is given exactly, and it serves only the first process once all are at the last level.
- Console, UART, PLIC, `printf`, `mkfs`, the test programs, and running a parsed shell command.
- BufferCache.Cache.Bread: assumes that no other process holds the buffer's lock, which is where `acquiresleep` would
  wait.
- WriteAheadLog.Log.Commit: assumes that nobody has a log block or a pending block locked while it runs, which is where
  it would wait; other buffers may be held, and one buffer is unused.
- WriteAheadLog.Log.FinishCommit: the same.
- VirtualMemory.Ram.UvmUnmap: unmapping without freeing is modelled for the trampoline and trapframe pages, its only
  use.
- VirtualMemory.Ram.MapPages: maps user frames and the two special pages; the kernel's direct map is left out.
- FileSystem.Fs.Run: a block in which a copy failed part way differs between cache and log until it is logged or
  evicted; the log is shown to hold all blocks for runs in which no copy fails inside a block.
- CrashSafety.Transact: one operation at a time is in the transaction, and nobody else holds a buffer, on a disk whose
  bitmap is one block; a write is at most as long as one chunk of `filewrite`. Group commit is in `WriteAheadLog`.
- CrashSafety.RunCommitted: the same, for operations whose copies do not fail inside a block.
- FileSystem.Fs.Filewrite: the bound of 7 logged blocks is for a disk whose bitmap is one block, as made by `mkfs`.
- Exec.BuildImage: the copying of argument strings to the new stack is one outcome chosen from outside, so the top page
  is described as it is before that copy.
- Umalloc.Heap.Free: headers are at multiples of 16 bytes, and `sbrk` returns memory above all it returned before.
- ShellParser.ParseExec: the argument arrays of the innermost command, filled while redirections are wrapped around it,
  are a sequence beside the redirections; sharing of tree nodes is not modelled.
- Grep.Run: a read error ends the input; the pattern, an argument string, contains no NUL.
