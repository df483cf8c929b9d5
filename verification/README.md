# xv6 with kernel threads: a Dafny model

A model of the hard parts of this kernel and its user library, with proofs: the redo log and
its crash safety, the file system on top of it, the buffer cache, the table of threads and
processes, kernel mutexes and sleep locks, the tournament-tree lock, malloc, page tables, pipes,
the shell's parser and grep's matcher.  `dafny verify dfyconfig.toml` checks all of it.

How the source appears here:

- Code that takes a lock is a transition system whose steps are the critical sections of that
  lock.  `IsRun` in each such module is a run from boot; theorems about runs hold for every
  interleaving.  A crash may follow any step of the log.
- Loops over tables, lists and buffers are methods of classes, with the fields the C structures
  have, each proved to take exactly such a step or to compute a specification function.
- A `panic` is a halt: a state `Halted`, a false result, or a negative one, stated exactly.
- `bwrite` of one block is atomic, as in Ass2/memide.c.  Callers of the log follow the order
  bread, modify, log_write, brelse that Ass2/log.c:204-212 prescribes, and an operation logs at
  most MAXOPBLOCKS different blocks; that filewrite does so is proved.
- Disk blocks are 512 bytes; words, inodes, the free map and the log header are decoded from
  them.  32-bit wrap-around is modelled where the code depends on it: pipe counters, malloc's
  sizes, the bounds of readi and writei.
- The tournament tree is used as its interface asks: depth at least 1, an id in range, each
  participant releasing what it acquired; its memory starts as zeroes and every mutex of the tree
  could be allocated.  release_lock unlocks from the root down, in the order the recursion is
  written.

| files | what they model |
|---|---|
| Basics, Codec | shared constants; bytes, words and bits of a disk block |
| LogModel, LogInvariant, LogRefinement, LogTheorems, LogSlots, LogCode | Ass2/log.c |
| BufferCache | Ass2/bio.c, Ass2/memide.c |
| CacheRefinement | that cache as the cache of the log's model |
| FsModel, FsLemmas, FsFile, FsWrite, FsCode, FsIo, FsTrunc, FsOps, FsInit | Ass2/fs.c, filewrite, mkfs's empty disk |
| FsSpace | free blocks against the blocks of files |
| FsCrash | the calls of filewrite as steps of the log, with a power failure |
| Threads, ThreadsInv, ThreadsSteps, ThreadsCode | processes and threads of Ass2/proc.c |
| ThreadsFork, ThreadsWait | pids and parents; what wait waits for; what kill_other_threads leaves |
| ThreadsJoin, ThreadsJoinRun | whom kthread_join removes |
| KernelMutex, MutexTable, MutexLaws, MutexCode, SleepLock | kthread_mutex of Ass2/proc.c, Ass2/sleeplock.c |
| Tournament, TournamentLive | Ass2/tournament_tree.c: exclusion, and that nobody is shut out |
| HeapModel, Umalloc | Ass2/umalloc.c, sbrk |
| VmModel, VmCount, Vm | Ass2/vm.c, Ass2/kalloc.c |
| Pipe | Ass2/pipe.c |
| Shell, ShellGrammar, ShellParse, ShellNul | the parser of Ass2/sh.c |
| Grep | the matcher of Ass2/grep.c |

## Findings

Where the code does not keep what its comments or its callers rely on, the model keeps the code,
gives an input, and proves the exact condition.

- Slot past the end of the log (Ass2/log.c:218, Ass2/mkfs.c:25).  mkfs makes the log LOGSIZE
  blocks long.  Two operations that pass the test of log_write at `lh.n == log.size - 2` before
  either appends give a last slot at `start + size`, the first inode block (`LogSlots.SlotOverflow`).
  All slots of all runs are inside if and only if `log.size > LOGSIZE`, or the log is its header
  alone and every log_write panics (`LogSlots.SlotsInLogIff`).
  The theorems about the log hold for every size, in every run whose slots stay inside
  (`SafeRun`); that includes all calls made one at a time (`LogCode.RedoLog`).
- Panic within the budget (Ass2/log.c:218).  In a log of LOGSIZE blocks an operation within its
  budget can be refused a block it logs for the first time; never in any run if and only if
  `log.size > LOGSIZE` (`LogSlots.FreshWriteIff`).  In a longer log the test fires only for a block
  that is already logged and would be absorbed (`LogSlots.LogCheckPanics`), which does happen
  (`LogSlots.AbsorbedWritePanics`).
- Large requests to malloc (Ass2/umalloc.c:54, 69).  `nu * sizeof(Header)` overflows the int that
  sbrk takes: 0xFFFFFFF8 asks for 0 bytes and 0xFFFFF000 for -4088, and morecore then writes a
  header outside the process.  If the process size and the request add up to 2^32, deallocuvm takes
  every page away and its result 0 reads as a failure: malloc returns null in a process without
  memory (0xFFFF7FF8 in one of 32768 bytes).  Above 0xFFFFFFF8 the rounding wraps and the block is
  too small (`Umalloc.TooLarge`).  malloc serves the request as it should if and only if
  `nbytes <= 0x7FFFFFF0` (`Umalloc.AsksRightIff`, `Umalloc.Heap.Malloc`).
- Write that gives up without waking (Ass2/pipe.c:86-88).  A writer of more bytes than fit, killed
  or without a reader, fills the pipe and returns -1 with no wakeup.  A reader that was asleep is
  left asleep over 512 bytes (`Pipe.StrandedReader`, any 513 bytes).  Sleepers stay right exactly
  unless `n > room && (killed || !readopen)` with a reader asleep (`Pipe.Pipe.Write`).
- Freeing a mutex with a waiter, and id 0 (Ass2/proc.c:842-891).  dealloc is refused only while the
  mutex is locked; between unlock and the waiter's next try it succeeds, and the waiter then takes
  the slot's next mutex (`MutexTable.FreedWhileWaiting`).  Locking id 0 locks a free slot
  (`MutexTable.FreeSlotLocked`).  The mutex properties are kept by a call if and only if it does
  neither (`MutexTable.GoodIff`).
- holdingsleep compares processes (Ass2/sleeplock.c:50).  With two threads in a process one can
  release what the other holds (`SleepLock.SharedPid`).  The guard is sound in all runs if and only
  if each process has one thread (`SleepLock.GuardIff`).
- kthread_join finds a slot, not an id (Ass2/proc.c:795-815).  After its loop it removes whatever
  zombie is in the slot.  Two threads join one; the first removes it, the slot is filled again and
  the new thread exits before the second runs, which removes the new one and returns 0
  (`ThreadsJoinRun.JoinsAnother`).  The zombie removed is the thread asked for if and only if no
  kthread_create has refilled the slot since the call (`ThreadsJoin.JoinedIsAsked`); a thread's only
  joiner, with no exit or exec meanwhile, gets that thread (`ThreadsJoin.JoinedAlone`).

## Model

| member | source | states |
|---|---|---|
| LogTheorems.RunRefines | Ass2/log.c:69-233 | Every run of the log whose slots stay inside it (every run at all if log.size is greater than LOGSIZE), with any number of operations, evictions and power failures, is step by step a run of a disk with one atomic commit: only the header write moves the durable contents, it takes everything visible at once with no operation open, and a crash falls back to it |
| LogTheorems.CrashAtomicity | Ass2/log.c:69-202 | At every point of every such run, what recovery would restore is the initial contents, or exactly what was visible at the last commit point, where no operation was open; never a mixture |
| LogTheorems.RecoveryRestores | Ass2/log.c:69-122 | In every such run, after a crash and any number of further crashes inside recovery, disk and memory hold in every home block what was durable at the first crash |
| LogTheorems.CommitReturned | Ass2/log.c:145-202 | When commit returns, no operation is open and everything visible is durable |
| LogTheorems.DurableBetween | Ass2/log.c:145-174 | In every such run, whenever no operation is open and none is being committed, everything visible is durable |
| LogTheorems.WriteAhead | Ass2/log.c:69-82 | A home block changes on the disk only while the header on the disk names it; until then a logged block is pinned in the cache |
| LogTheorems.CommitMoves | Ass2/log.c:145-202 | With no buffer locked, a commit always has a next step and each step lowers the number left |
| LogTheorems.RecoveryMoves | Ass2/log.c:115-122 | The same for recovery |
| LogInvariant.InvRun | Ass2/log.c:69-233 | In every state of every such run the logged blocks are distinct home blocks, pinned until installed; clean unlocked buffers agree with the disk; no operation is open while the committer works; and the log's use plus every open operation's unused budget stays within LOGSIZE |
| LogInvariant.InvLogAppend | Ass2/log.c:213-233 | log_write keeps that budget: absorbing costs nothing, appending takes one block of the caller's share |
| LogInvariant.InvEndOp | Ass2/log.c:145-174 | end_op keeps it, and only the last one out starts the committer |
| LogRefinement.Refine | Ass2/log.c:69-233 | Each single step is one step of the atomic-commit disk or invisible to it |
| LogRefinement.CommitPoint | Ass2/log.c:101-113 | Writing the header makes durable exactly what the file system sees |
| LogRefinement.CopyDurable | Ass2/log.c:69-82 | Copying a log slot to its home block changes nothing that recovery would restore, however often it is repeated |
| LogRefinement.ClearDurable | Ass2/log.c:101-113 | Once every slot is home, erasing the header loses nothing |
| LogSlots.SlotsInLogIff | Ass2/log.c:213-233 | The log slots of every run lie inside the log if and only if log.size is greater than LOGSIZE, or is 1: a header alone, with which every log_write panics |
| LogSlots.SlotOverflow | Ass2/log.c:213-233 | For every log of 2 to LOGSIZE blocks: a run, with all operations within their budget, in which two operations pass log_write's test before either appends and the last slot lies behind the log |
| LogSlots.FreshWriteIff | Ass2/log.c:213-233 | No operation within its budget is refused the first log_write of a block, in any run, if and only if log.size is greater than LOGSIZE |
| LogSlots.LogCheckPanics | Ass2/log.c:213-233 | In a log longer than LOGSIZE the test fires exactly on a full log, and then only for a block that absorption would have accepted |
| LogSlots.AbsorbedWritePanics | Ass2/log.c:213-233 | Such a run exists: three operations within their budget fill the log and the first logs its first block again |
| LogModel.Encode | Ass2/log.c:101-113 | The header block written by write_head reads back as the same block numbers |
| LogCode.RedoLog.constructor | Ass2/log.c:54-66 | The state before initlog, with an empty log |
| LogCode.RedoLog.FillHead | Ass2/log.c:101-113 | The loop of write_head stores n and the first n block numbers, and leaves the rest of the buffer |
| LogCode.RedoLog.WriteHead | Ass2/log.c:101-113 | The header block, on disk and cached, is that encoding |
| LogCode.RedoLog.ReadHead | Ass2/log.c:85-96 | read_head gets back exactly the block numbers on the disk |
| LogCode.RedoLog.WriteLogBlocks | Ass2/log.c:177-190 | One disk write per logged block; afterwards the committer stands before the header write |
| LogCode.RedoLog.InstallTrans | Ass2/log.c:69-82 | One disk write per logged block, each a step of the transition system, for commit and for recovery |
| LogCode.RedoLog.Commit | Ass2/log.c:192-202 | The writes happen in the order log blocks, header, home blocks, header again; none if nothing is logged |
| LogCode.RedoLog.BeginOp | Ass2/log.c:125-141 | Admitted exactly if no commit is running and the log has room for MAXOPBLOCKS blocks of every open operation and the new one |
| LogCode.RedoLog.LogWrite | Ass2/log.c:213-233 | The panic exactly on a full log; otherwise the block is absorbed or appended and its buffer pinned |
| LogCode.RedoLog.EndOp | Ass2/log.c:145-174 | What the file system sees does not change; when the last operation leaves, all of it is durable on return |
| LogCode.RedoLog.RecoverFromLog | Ass2/log.c:115-122 | From whatever a crash left, every home block ends up as the durable contents, on disk and in memory |
| LogCode.RedoLog.CrashAndReboot | Ass2/log.c:54-66 | A power failure between any two calls, then initlog: the same |
| FsModel.UsageUpdate | Ass2/fs.c:56-96 | Writing one bit of one free-map byte changes the flag of exactly that block |
| FsModel.InodeAfter | Ass2/fs.c:221-237 | Writing one inode changes that inode and no other of its block |
| FsModel.OwnedAlloc | Ass2/fs.c:56-78 | Giving a free block to an empty slot keeps: a data block is in use if and only if exactly one slot of one inode names it |
| FsModel.OwnedFree | Ass2/fs.c:81-96 | Freeing the block of a slot keeps it too |
| FsCode.FileSys.Balloc | Ass2/fs.c:56-78 | The first free block, marked in use and zeroed, never a metadata block; -1 exactly if every block is in use |
| FsCode.FileSys.Bfree | Ass2/fs.c:81-96 | The block's flag is cleared; refused exactly if it was clear |
| FsCode.FileSys.Bmap | Ass2/fs.c:373-401 | The block of any file block, direct or indirect, allocated with its indirect block if needed; ownership kept, a mapped block found without any change, and the blocks it dirties counted; fails exactly beyond MAXFILE or if fewer blocks are free than it needs |
| FsSpace.SpaceLaw | Ass2/fs.c:56-100 | In every state the file system keeps, free blocks and blocks named by inodes add up to the data blocks of the disk |
| FsSpace.SpaceKept | Ass2/fs.c:373-401 | When one inode gains or loses blocks, the free blocks pay for exactly these |
| FsSpace.MappedFilled | Ass2/fs.c:373-401 | A file of m blocks without holes takes m blocks, and one more past NDIRECT |
| FsIo.Iupdate | Ass2/fs.c:221-237 | The disk inode equals the in-memory one; no other inode, map or data changes |
| FsIo.Readi | Ass2/fs.c:453-477 | Exactly the bytes of the file from off on, cut off at its end, and nothing allocated or changed; -1 exactly if off is behind the end or off + n wraps |
| FsIo.Writei | Ass2/fs.c:482-512 | The file's bytes are replaced by src at off and grow if need be, across direct and indirect blocks; no other file changes; no holes; the disk inode is current; the number of blocks dirtied is bounded; -1 exactly if off is behind the end or the file would be too long; the panic for want of blocks exactly if fewer are free than the longer file and its indirect block need |
| FsIo.HealthyKept | Ass2/fs.c:482-512 | After a write that touches one file, the whole disk is sound and every other file has its contents |
| FsWrite.WrittenMore | Ass2/fs.c:496-503 | One round of writei's loop extends the bytes written by exactly its piece |
| FsWrite.ChunkFits | Ass2/file.c:126-141 | A chunk of at most 1536 bytes, at any offset up to the size, dirties at most MAXOPBLOCKS different blocks |
| FsTrunc.Itrunc | Ass2/fs.c:408-436 | The file is empty in memory and on disk; exactly its blocks became free; no other file changes; "freeing free block" cannot happen |
| FsOps.WriteChunk | Ass2/file.c:133-152 | One operation of filewrite: within the log's budget, the disk sound afterwards, exactly that piece in the file; the panic exactly as in writei |
| FsOps.FileWrite | Ass2/file.c:117-156 | Exactly the bytes up to some chunk are written and the offset moved by as many; all of them, or the next chunk does not fit; the panic only if the next chunk fits in the file but the disk had, at the start, too few free blocks for the file up to there; otherwise the free blocks are fewer by exactly what the file has grown; after each of its operations the disk is sound and holds src up to the end of a chunk; its log_writes, replayed, lead to each of these disks |
| FsOps.TrailChunk | Ass2/file.c:133-152 | What that trail of operations means for the disk alone: its inode table, its files, the written file |
| FsOps.TrailSpace | Ass2/file.c:133-152 | After each operation of a write the free blocks are fewer by exactly what the file has gained |
| FsOps.TrailNeed | Ass2/file.c:133-152 | So from any operation of a write on, there are enough free blocks to go on up to a byte exactly if there were at its start |
| FsOps.TrailPaid | Ass2/file.c:133-152 | There were enough at the start for all that has been written |
| FsCrash.PerformsFollows | Ass2/log.c:204-233 | A thread whose steps on the log are the log_writes and end_ops recorded, cut off anywhere, takes what is visible along the recorded disks, one operation at a time |
| FsCrash.DurableIsOne | Ass2/log.c:145-202 | While the file system moves from disk to disk, one operation at a time, the durable contents are always one of those disks |
| FsCrash.RecoversOne | Ass2/log.c:115-122 | So is the disk after a crash at any step of those calls and recovery, in every block outside the log, whatever the run did before them |
| FsCrash.CrashInWrite | Ass2/file.c:117-156 | A power failure at any moment of a filewrite that began between operations of any run, then recovery: a sound disk, the file with src written up to the end of some chunk, every other file as it was |
| FsInit.MarkUsed | Ass2/mkfs.c:238-251 | The free-map block has exactly the first used bits set |
| FsInit.Mkfs | Ass2/mkfs.c:68-168 | A disk without files meets the file system's invariant, every inode free and empty |
| BufferCache.Cache.constructor | Ass2/bio.c:39-56 | binit leaves a well-formed cycle through all NBUF buffers |
| BufferCache.Cache.Bget | Ass2/bio.c:61-93 | The buffer that caches the block, or else the unused, clean one whose last reference was dropped longest ago; the panic exactly if there is neither; never two buffers for one block |
| BufferCache.Cache.Iderw | Ass2/memide.c:38-60 | A dirty buffer goes to the disk, an invalid one is read; what readers see does not change; a panic exactly if the buffer is unlocked, has nothing to do, or names no block |
| BufferCache.Cache.Bread | Ass2/bio.c:96-106 | A reader gets what was last written to the block, cached or not |
| BufferCache.Cache.Bwrite | Ass2/bio.c:109-116 | The disk holds what the buffer holds; the panic exactly without the lock |
| BufferCache.Cache.Unlock | Ass2/bio.c:120-141 | A buffer released clean agrees with its disk block |
| BufferCache.Cache.Unref | Ass2/bio.c:120-141 | The last reference moves the buffer to the head of the list, which stays a cycle in order of release |
| BufferCache.Recycled | Ass2/bio.c:78-91 | Dropping an unused clean buffer loses nothing |
| CacheRefinement.Get | Ass2/bio.c:61-93 | bget over the cache is an eviction of the log's model if it recycles a valid buffer, and invisible otherwise |
| CacheRefinement.Lock | Ass2/bio.c:61-106 | Getting the lock of a valid buffer is the model's bread; of a buffer not yet read, invisible |
| CacheRefinement.Read | Ass2/bio.c:96-106 | Reading the block in under the lock is then the model's bread; the panic exactly if the buffer names no block of the disk |
| CacheRefinement.Change | Ass2/log.c:204-212 | Writing to a locked buffer is the model's change of the block |
| CacheRefinement.Pin | Ass2/log.c:213-233 | The flag log_write sets is the pin of the model's log_write |
| CacheRefinement.Release | Ass2/bio.c:120-141 | releasesleep in brelse is the model's brelse |
| CacheRefinement.Drop | Ass2/bio.c:120-141 | Dropping the reference and moving the buffer in the list is invisible |
| CacheRefinement.TakeOwn | Ass2/bio.c:96-106 | bread by the committer gives the block as the model sees it, cached or not |
| CacheRefinement.Copy | Ass2/log.c:177-190 | The committer's memmove and bwrite are one step of write_log or install_trans in the model |
| CacheRefinement.OwnPut | Ass2/bio.c:109-116 | bwrite by the committer: disk and cached copy of the model become what the buffer holds |
| ThreadsSteps.InvRun | Ass2/proc.c:99-819 | What follows holds whenever ptable.lock is free, over all interleavings of fork, create, exit, kill_other_threads, wait, join, sleep, wakeup and the schedulers |
| ThreadsSteps.RunningOnce | Ass2/proc.c:437-521 | A thread is TRUNNING if and only if exactly one CPU runs it; it then has a stack and a process in use |
| ThreadsSteps.DistinctThreads | Ass2/proc.c:99-151 | Live threads have different tids and kernel stacks |
| ThreadsSteps.NoLostExit | Ass2/proc.c:295-427 | Every zombie has a live parent, none of whose threads sleeps in wait, reparenting to init included, and no live thread of its own |
| ThreadsSteps.NoLostJoin | Ass2/proc.c:739-819 | No thread sleeps in join on a slot that is TZOMBIE or TUNUSED |
| ThreadsSteps.InvSafeExit | Ass2/proc.c:295-335 | safe_exit keeps all of that: children go to init, init is woken if one of them is a zombie, the parent is woken |
| ThreadsSteps.InvKillScan | Ass2/proc.c:351-383 | So does one scan of kill_other_threads, which removes sleepers and marks the rest |
| ThreadsFork.PidsRun | Ass2/proc.c:99-151 | In every run processes in use have different pids, all below nextpid |
| ThreadsFork.ForkedIsChild | Ass2/proc.c:226-335 | In every run what a process forks is its child as long as it is there and the forker has not exited, and init's child after that |
| ThreadsWait.NoIdleWait | Ass2/proc.c:386-427 | In every run a thread asleep in wait has a child that is not yet a zombie: nobody waits for nothing |
| ThreadsWait.ScanMarks | Ass2/proc.c:351-383 | One scan of kill_other_threads: sleepers and zombies are gone, runnable and running threads are marked killed and otherwise as they were; the caller goes round again exactly if another thread was alive |
| ThreadsWait.KilledUntilGone | Ass2/proc.c:351-383 | In every run, from a scan on, each other thread of the process is marked killed for as long as it is there |
| ThreadsCode.Kernel.constructor | Ass2/proc.c:157-194 | userinit leaves one process with one runnable thread |
| ThreadsCode.Kernel.Wakeup1 | Ass2/proc.c:587-611 | Exactly the sleepers on the channel become runnable |
| ThreadsCode.Kernel.KillOtherThreads | Ass2/proc.c:351-383 | The loops are the scan step of the transition system, or the caller's own death |
| ThreadsCode.Kernel.SafeExit | Ass2/proc.c:295-335 | The loops are the exit step of the transition system |
| ThreadsCode.Kernel.Wait | Ass2/proc.c:386-427 | One round of wait reaps a zombie child exactly if there is one; otherwise it fails exactly if the caller is killed or has no child at all, and sleeps exactly if it is not killed and has one |
| ThreadsCode.Kernel.ThreadExit | Ass2/proc.c:739-761 | The thread becomes a zombie and its joiners wake, unless no other thread is left |
| ThreadsCode.Kernel.Fork | Ass2/proc.c:226-275 | A new process with one runnable thread, exactly if there is a free slot, a stack and a copy of the memory |
| ThreadsCode.Kernel.Create | Ass2/proc.c:680-729 | A new runnable thread, exactly if the process has a free slot and there is a stack |
| ThreadsCode.Kernel.Join | Ass2/proc.c:788-819 | One round of join sleeps, or removes the zombie it finds in the slot, whatever its id by then |
| ThreadsJoin.JoinedIsAsked | Ass2/proc.c:788-819 | The exact condition, over all runs: the zombie a join removes is the thread it was asked for if and only if no kthread_create has refilled the slot since the call |
| ThreadsJoin.JoinedAlone | Ass2/proc.c:788-819 | For the only joiner of a thread, with no exit or exec meanwhile, join returns only once that very thread is a zombie, and removes it |
| ThreadsJoinRun.JoinsAnother | Ass2/proc.c:788-819 | From every initial state with two CPUs: a run in which two threads join one, and the second removes a later thread and returns 0 |
| KernelMutex.MutexInvStep | Ass2/proc.c:867-914 | Every step on a slot keeps: MLOCKED means one holder, and a sleeper means locked or a wakeup to come |
| MutexTable.InvRun | Ass2/proc.c:821-914 | In every run, whatever ids the calls name, live ids are positive and in one slot each, and a slot is MLOCKED if and only if it has a holder |
| MutexTable.FreshIds | Ass2/proc.c:821-841 | alloc never returns an id twice |
| MutexTable.GoodIff | Ass2/proc.c:821-914 | The exact condition: from a state in which locks and waiters are on live mutexes under the id they asked for and no wakeup is lost, a step leads to such a state if and only if it does not lock id 0 while a slot is free and does not free a mutex with a thread inside lock |
| MutexTable.GoodRun | Ass2/proc.c:821-914 | So in every run that keeps to this, a sleeper on a mutex means it is locked or an unlocker has yet to call wakeup, and each holder holds what it asked for |
| MutexTable.HeldUntilUnlock | Ass2/proc.c:893-914 | Over any stretch of such a run, a mutex stays with its holder under its id until that holder unlocks that id |
| MutexTable.FreedWhileWaiting | Ass2/proc.c:842-865 | A run in which a mutex is freed while a thread waits for it: the thread comes to hold another mutex, and its own unlock is refused |
| MutexTable.FreeSlotLocked | Ass2/proc.c:867-891 | A run in which id 0 is locked: a later alloc strands the sleeper |
| MutexTable.CoreStep | Ass2/proc.c:867-914 | Lock and unlock by id are the slot steps the tournament tree is built on; a refused call changes nothing |
| MutexLaws.SlotChanged | Ass2/proc.c:821-914 | Writing one slot replaces one entry in the map from live ids to holders, and no other |
| MutexLaws.AllocLaw | Ass2/proc.c:821-841 | alloc returns -1 exactly if all slots are live; otherwise a positive id that was not live, whose mutex nobody holds, and no other mutex changes |
| MutexLaws.DeallocLaw | Ass2/proc.c:842-865 | dealloc removes exactly that mutex if it is live and nobody holds it; otherwise -1 and nothing changes |
| MutexLaws.LockLaw | Ass2/proc.c:867-891 | lock returns 0 exactly if the mutex is live and nobody holds it, and then the caller does; -1 exactly for an unknown id or the caller's own mutex; it sleeps exactly if another thread holds it |
| MutexLaws.AgainLaw | Ass2/proc.c:867-891 | A thread woken in lock: it returns 0 exactly if nobody holds the mutex it asked for, and then it does; otherwise it sleeps again |
| MutexLaws.UnlockLaw | Ass2/proc.c:893-914 | unlock lets go of the mutex exactly if the caller holds it; otherwise -1 and nothing changes |
| MutexLaws.WakeupLaw | Ass2/proc.c:893-914 | The wakeup ends the call, leaves nobody asleep on the slot and changes no mutex |
| MutexLaws.AllocThenLock | Ass2/proc.c:821-891 | The id alloc returns can be locked at once, by any thread, which then holds it |
| MutexLaws.LockThenUnlock | Ass2/proc.c:867-914 | unlock undoes lock: every mutex is as before |
| MutexCode.Mtable.constructor | Ass2/proc.c:19-30 | The table at boot, all slots free, nextmid 1 |
| MutexCode.Mtable.Alloc | Ass2/proc.c:821-841 | The loop is the alloc step, and so: -1 exactly if no slot is free, otherwise a new id with a mutex that nobody holds |
| MutexCode.Mtable.Dealloc | Ass2/proc.c:842-865 | The loop is the dealloc step, and so: 0 exactly for a live mutex that nobody holds, which alone is gone |
| MutexCode.Mtable.Lock | Ass2/proc.c:867-891 | The loop up to its first sleep is the lock step, and so: 0, -1 or sleep exactly as the holder of the id decides, and the caller holds it exactly after 0 |
| MutexCode.Mtable.Again | Ass2/proc.c:867-891 | A further round of the loop is the step of a woken thread; it returns 0 exactly if the slot was free of a holder and has the caller now |
| MutexCode.Mtable.Unlock | Ass2/proc.c:893-914 | The unlock step, and so: refused to all but the holder, whose mutex alone is free afterwards |
| MutexCode.Mtable.Wakeup | Ass2/proc.c:893-914 | The wakeup step: exactly the sleepers on the slot go back to the xchg |
| SleepLock.InvIff | Ass2/sleeplock.c:22-42 | A step keeps exclusion, and that a sleeper means locked, if and only if it does not release a lock another thread is inside of |
| SleepLock.ExclusionRun | Ass2/sleeplock.c:22-42 | So in every run whose releases are by the thread inside, at most one thread is between acquiresleep and releasesleep, and no wakeup is lost |
| SleepLock.GuardIff | Ass2/sleeplock.c:44-53 | Releases guarded by holdingsleep keep exclusion in all runs if and only if no process has two threads that use the lock |
| SleepLock.SharedPid | Ass2/sleeplock.c:44-53 | For any two threads of a process, a guarded run that ends with both inside |
| SleepLock.Sleeplock.AcquireSleep | Ass2/sleeplock.c:22-32 | One round of acquiresleep's loop is the acquire step |
| SleepLock.Sleeplock.ReleaseSleep | Ass2/sleeplock.c:34-42 | releasesleep is the release step: everybody wakes |
| SleepLock.Sleeplock.HoldingSleep | Ass2/sleeplock.c:44-53 | Yes for the thread inside; exactly for it if processes have one thread each |
| TreeShape.Sizes | Ass2/tournament_tree.c:12-38 | The loop of alloc computes 2^depth participants and 2^(depth+1) - 1 nodes |
| TreeShape.ClimbReachesRoot | Ass2/tournament_tree.c:65-81 | The nodes on the way up strictly decrease and reach 0 after exactly depth steps |
| TreeShape.LockOrder | Ass2/tournament_tree.c:74-80 | acquire's loop names exactly the nodes of the path, parent of the leaf first |
| TreeShape.UnlockOrder | Ass2/tournament_tree.c:108-112 | release_lock's recursion names them in the opposite order |
| Tournament.InvRun | Ass2/tournament_tree.c:59-112 | In every reachable state each mutex held is accounted for by its holder's place in the code, ids are taken once, and num_of_locked counts them |
| Tournament.MutualExclusion | Ass2/tournament_tree.c:59-112 | At most one thread is between the return of acquire and the start of release_lock |
| Tournament.HeldIsPrefix | Ass2/tournament_tree.c:59-112 | The nodes a thread holds are exactly the first of its path from the leaf's parent up |
| Tournament.AtMostTwo | Ass2/tournament_tree.c:59-112 | At most two threads hold or wait at any node |
| Tournament.NeverRefused | Ass2/tournament_tree.c:59-112 | No kernel call of the tree code fails once the id is taken |
| Tournament.LockedCount | Ass2/tournament_tree.c:39-47 | num_of_locked is zero exactly when no thread owns an id |
| Tournament.Progress | Ass2/tournament_tree.c:59-112 | While a thread is in the tree code, one of those in it is awake and can step |
| Tournament.HolderBelow | Ass2/tournament_tree.c:65-81 | A waiting chain strictly descends in node numbers, so it has no cycle |
| Tournament.ClimbOrder | Ass2/tournament_tree.c:74-80 | In every run the mutexes a climbing thread has locked are those LockOrder lists, in that order |
| Tournament.ReleaseOrder | Ass2/tournament_tree.c:108-112 | In every run the mutexes a releasing thread has unlocked are those UnlockOrder lists, in that order |
| TournamentLive.RefusedIsTaken | Ass2/tournament_tree.c:59-73 | In every run a thread that acquire turns away had met, at its test, another thread that owned that id |
| TournamentLive.WorkEnds | Ass2/tournament_tree.c:59-112 | In every run, under any scheduler, the number of steps without a new call of acquire is bounded by the work the state has left: no livelock |
| TournamentLive.EndsOutside | Ass2/tournament_tree.c:59-112 | While anyone is in the tree code a step of that work exists, so the work ends only with nobody in it |
| TournamentLive.AnyoneCanEnter | Ass2/tournament_tree.c:59-81 | From the end of every run, for every thread and every id in range, the run can go on so that this thread returns from acquire with that id |
| HeapModel.NoOverlap | Ass2/umalloc.c:24-90 | Blocks, free or live, never overlap, and free ones are not even adjacent |
| HeapModel.FreeDone | Ass2/umalloc.c:32-43 | The stores of free keep the list circular, in address order with one wrap and fully merged, and the partition of all units into blocks |
| Umalloc.SbrkGives | Ass2/umalloc.c:52-56 | sbrk gives the units asked for exactly if they are fewer than 2^28 and there is room; from 2^28 on it gives none, and fails exactly if size and request add up to 2^32, after taking the whole memory away |
| Umalloc.AsksRightIff | Ass2/umalloc.c:64-90 | The units hold the request and are what sbrk is asked for, if and only if nbytes is at most 0x7FFFFFF0 |
| Umalloc.TooLarge | Ass2/umalloc.c:64-90 | Requests that fail: 0xFFFFFFF8 asks sbrk for 0 bytes, 0xFFFFF000 for -4088, 0xFFFFFFFF gets a block of no bytes, and 0xFFFF7FF8 takes away all of a process of 32768 bytes |
| Umalloc.Heap.constructor | Ass2/umalloc.c:21-22 | A program before its first malloc |
| Umalloc.Heap.FindPlace | Ass2/umalloc.c:29-31 | free's search ends, at the one place where the block belongs |
| Umalloc.Heap.Free | Ass2/umalloc.c:24-44 | The block joins its free neighbours; no other live block is touched; no unit is lost |
| Umalloc.Heap.Morecore | Ass2/umalloc.c:46-61 | A free block of at least nu units, or nothing changed for want of memory, exactly if nu is less than 2^28; from there on the wild store, or null and a process without memory exactly if its size and 8 * nu add up to 2^32 |
| Umalloc.Heap.Lap | Ass2/umalloc.c:74-86 | One lap of malloc's loop finds the first block after freep that fits, and its predecessor; none exactly if no block fits |
| Umalloc.Heap.FirstFit | Ass2/umalloc.c:74-90 | If a free block fits, the last units of the first such block after freep are returned, freep becomes its predecessor and the break stays; otherwise morecore is called once and one more lap finds the block; null exactly if no block fits, the request is less than 2^28 units and there is no room; the other two failures exactly as in morecore |
| Umalloc.Heap.Malloc | Ass2/umalloc.c:63-90 | A block of the right number of units, disjoint from every live one, which keep their place and contents; taken from the free list whenever a block there fits, from sbrk otherwise; null exactly if neither can be; the wild store or the lost memory exactly for nbytes between 0x7FFFFFF1 and 0xFFFFFFF8, and which of them exactly |
| VmModel.OneUse | Ass2/vm.c:36-81 | A page has one use: no frame is mapped twice, and none is free, a directory or a table |
| VmCount.MissingIs | Ass2/vm.c:36-56 | The page tables a walk over a range of pages allocates one by one are the directory entries of the range that are not there |
| Vm.Memory.constructor | Ass2/kalloc.c:31-53 | freerange puts every page on the free list once |
| Vm.Memory.Kalloc | Ass2/kalloc.c:82-95 | A page that was free and is so no longer; 0 exactly if there is none |
| Vm.Memory.Kfree | Ass2/kalloc.c:59-77 | The page is free again |
| Vm.Memory.Walk | Ass2/vm.c:36-56 | The table of an address, new if need be, which takes one page; no mapping changes; fails exactly if it needs a page and there is none |
| Vm.Memory.MapUser | Ass2/vm.c:61-81 | One user page is mapped onto the frame; fails exactly if the table is missing and no page is free, and then changes nothing |
| Vm.Memory.SetupKvm | Ass2/vm.c:119-137 | A new address space with the kernel's mappings and no user page, exactly if there are free pages for the directory and each table it needs; on failure every page is where it was |
| Vm.Memory.AllocUvm | Ass2/vm.c:222-250 | Exactly if there are free pages for the new frames and the missing tables: exactly the pages of the range get fresh frames, all zeroes; no page in use changes its contents; on failure all of these go back and only table pages stay |
| Vm.Memory.DeallocUvm | Ass2/vm.c:256-280 | Exactly the frames of the range are freed, although the loop skips 4 MB where there is no table |
| Vm.Memory.FreeVm | Ass2/vm.c:284-299 | Every page of the address space goes back once; no other page moves and no other address space changes |
| Vm.Memory.CopyUvm | Ass2/vm.c:316-346 | Exactly if there are free pages for directory, tables and frames: the child has the parent's pages with equal contents and flags in frames of its own; on failure every page is where it was |
| Pipe.Slot | Ass2/pipe.c:93 | The ring slots line up across the wrap-around of the 32-bit counters |
| Pipe.Compare | Ass2/pipe.c:85 | Comparing wrapped counters decides empty and full |
| Pipe.Pipe.constructor | Ass2/pipe.c:22-57 | An empty pipe, both ends open |
| Pipe.Pipe.Write | Ass2/pipe.c:78-98 | As many bytes as fit go in, in order; -1 exactly if more remain and the reader is gone or the writer killed, sleep exactly if more remain otherwise; sleepers stay right exactly unless it gives up over a sleeping reader |
| Pipe.Pipe.Read | Ass2/pipe.c:100-121 | The next bytes in order, as many as asked for or there are; sleep exactly if the pipe is empty and may still be written; sleepers stay right |
| Pipe.Pipe.Close | Ass2/pipe.c:59-75 | The other side wakes; freed exactly if both ends are closed, and then nobody sleeps on it |
| Pipe.StrandedReader | Ass2/pipe.c:86-88 | The failing run: 513 bytes or more, a sleeping reader, and a writer killed or without a reader |
| Shell.GetToken | Ass2/sh.c:265-308 | The scanner's loops compute the next token of the declarative lexer |
| Shell.Peek | Ass2/sh.c:310-320 | Skipping white space loses no token; the answer is about the next character |
| ShellGrammar.OneTree | Ass2/sh.c:327-446 | The grammar is unambiguous: a line has at most one tree |
| ShellGrammar.LineUnique | Ass2/sh.c:344-359 | A line, where it ends and its tree are determined by the tokens |
| ShellParse.ParseCmd | Ass2/sh.c:327-342 | parsecmd accepts exactly the lines of the grammar and returns the one tree they have; it always terminates |
| ShellParse.ParseLine | Ass2/sh.c:344-359 | If some prefix of the tokens is a line, the parser reads exactly that one and returns its tree; if it succeeds, what it read is a line |
| ShellParse.ParsePipe | Ass2/sh.c:361-372 | The same for pipelines |
| ShellParse.ParseRedirs | Ass2/sh.c:374-397 | Reads every redirection at the cursor, in order, up to the first other token; inside a command of the grammar it does not fail and does not read past its end |
| Shell.RightToLeft | Ass2/sh.c:374-397 | The redirections of a command nest so that runcmd opens their files from right to left |
| Shell.LeftmostWins | Ass2/sh.c:82-90 | So, of several redirections of one descriptor, the leftmost decides what the program gets; without one the descriptor is as it was |
| ShellParse.ParseBlock | Ass2/sh.c:399-413 | The same for parenthesised lines and the redirections behind them |
| ShellParse.ParseExec | Ass2/sh.c:415-446 | The same for simple commands, with fewer than MAXARGS arguments |
| ShellNul.NulTerminate | Ass2/sh.c:449-493 | Exactly the ends of the tree's words become NUL |
| ShellNul.WordReads | Ass2/sh.c:449-493 | Each word, read as a NUL-terminated string, is then the token the scanner delimited |
| ShellNul.Parse | Ass2/sh.c:327-342 | The whole of parsecmd on its buffer: the tree, and every argument and file name readable in place |
| Grep.Match | Ass2/grep.c:72-82 | True exactly if the text has a substring in the language of the pattern, anchored by ^ and $ |
| Grep.MatchHere | Ass2/grep.c:85-96 | True exactly if a prefix of the text is in the language of the pattern |
| Grep.MatchStar | Ass2/grep.c:99-106 | True exactly if after some run of the character the rest of the pattern matches |

## Left out

- LogTheorems.CrashAtomicity: for a log of LOGSIZE blocks or fewer, says nothing of runs in which a slot leaves the log (LogSlots.SlotOverflow); nor do the other theorems about runs of the log.
- LogCode.RedoLog.EndOp: requires that no other thread has a logged block's buffer locked when the last operation leaves; there commit's bread sleeps first.  The transition system has those interleavings.
- LogTheorems.CommitMoves: requires that no buffer is locked, because a committer waits for buffers other threads hold.
- LogCode.RedoLog.LogWrite: the second panic of log_write, outside any operation, is a precondition.
- FsCrash.CrashInWrite: takes as given that the writing thread's steps on the log are the log_writes and end_ops that FileWrite records, and that no other thread has an operation open meanwhile; readers and evictions are free.
- FsOps.FileWrite: a write that finds the disk full is -2, where balloc panics; files only, not pipes or devices.
- FsIo.Readi: device inodes are not modelled.
- FsIo.Writei: device inodes are not modelled; callers pass fewer than 2^32 bytes.
- FsInit.Mkfs: the empty disk only; mkfs adds the root directory and the files named on its command line, and its free map is one block.
- BufferCache.Cache.Bget: stops before acquiresleep; Acquire is the rest, when the lock is free.
- ThreadsCode.Kernel.Wait: the state of the caller is a precondition that the invariant of every run gives.
- ThreadsCode.Kernel.Join: says which slot is emptied, not whose thread it was, which ThreadsJoin does over runs; starts after the search for the id, which is taken to name a slot of the process; the search runs off the table otherwise.
- ThreadsCode.Kernel.Fork: file descriptors, the trap frame and the copied memory are not part of it; whether kalloc and copyuvm succeed is a parameter.
- MutexTable.InvRun: ids are unbounded, so nextmid does not overflow; threads do not exit, so remove_thread's dealloc is a call like any other.
- MutexCode.Mtable.Lock: tids stand for threads, which is the same while no thread exits.
- Tournament.MutualExclusion: negative ids, which acquire does not reject, and callers that release what they did not acquire are not modelled.
- TournamentLive.AnyoneCanEnter: the scheduler is not fair by assumption, and a mutex goes to whichever waiter retries first, so no single acquire is promised to return; every run without new calls ends, and every thread can be let in.
- Tournament.LockedCount: trnmnt_tree_dealloc itself reads the tree after freeing it and is not modelled.
- Umalloc.Heap.Malloc: nothing is promised after the wild store or once the memory is gone; a program that moves the break itself by other than whole units is not modelled.
- Vm.Memory.AllocUvm: the pages of the range are unmapped before, as mappages demands with a panic; page contents other than those of user frames are not modelled.
- Vm.Memory.CopyUvm: the parent's pages are present, as copyuvm demands with a panic.
- Vm.Memory.SetupKvm: the kernel map is ascending and above KERNBASE, as Ass2/vm.c:105-117 has it.
- Vm.Memory.FreeVm: a directory entry is forgotten when its table is freed; the source leaves it in a page it then frees.
- Pipe.Pipe.Write: the copy from user memory is not modelled; killed is fixed while the lock is held.
- ShellParse.ParseCmd: lines without a NUL byte inside; redirections are returned as a list and wrapped around the command, because the tree is a value while the source fills the command in after wrapping it.
- Directories, path names, inode allocation and reference counts (ialloc, iget, iput, dirlookup, namex): not modelled.
- exec, kill, sbrk's page-table work beyond its result, growproc's locking, traps and system-call arguments: not modelled.
- The scheduler's order, run times and fairness; spinlocks, interrupts and the context switch: a critical section is one atomic step.
- Lock order across ptable.lock and mtable.mlock: not stated, because remove_thread and the mutex code take them in opposite orders.
- CacheRefinement.Copy: the blocks the committer has locked are set apart while it works, since the model copies a block in one step.
- grep's line buffer, the shell's runcmd beyond its redirections, printf, the console and the remaining user programs: easy members or host input and output.
