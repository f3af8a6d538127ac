# Verified models of an xv6 kernel with containers

This project models the parts of the kernel and of its user programs where the hard
reasoning is, and proves what they promise. A protocol that several processes run at
once is a state machine whose steps are single lock operations, memory accesses or
disk writes, or whole sections under one lock, and its theorems hold after every run of
any number of processes. Sequential code that works in place is a class or a method
with its loops, proved against functions that say what it should do.

| files | what they model |
|---|---|
| `Basics` | optional values, lists without repeats |
| `Words` | disk blocks as bytes, and the little-endian words in them |
| `LogFormat`, `LogMachine`, `LogProofs`, `LogReservation`, `LogSerial`, `Log` | the redo log: crash safety, concurrent operations, space reservation, the code |
| `CacheMachine`, `CacheProofs`, `LogBuffers`, `Bio` | the buffer cache: agreement with the latest contents, pinning, what a commit finds left, the LRU ring |
| `IdeMachine`, `Ide` | the interrupt-driven disk driver against the in-memory disk |
| `Bitmap`, `Inode`, `FileContent`, `Dinode`, `Volume`, `Trunc`, `Settle`, `Fs`, `Trails`, `File`, `FileCrash` | block allocator, block map, file contents, on-disk inodes, the whole file system, filewrite's transactions among those of others, and a crash among them |
| `SleepMachine`, `SleepProofs` | sleep, wakeup and the sleeplock |
| `PipeMachine`, `PipeProofs` | pipes |
| `ProcMachine`, `ProcProofs`, `Proc` | fork, exit, wait and kill |
| `SchedMachine`, `SchedPass` | the container scheduler |
| `Paging`, `Vm` | page tables, the page allocator, address spaces |
| `FreeList`, `Umalloc` | the user-level allocator |
| `ShellLex`, `ShellParse`, `ShellGrammar`, `ShellRoundTrip`, `Shell` | the shell's parser against a grammar of its tokens |
| `Grep` | the regular-expression matcher |

Conventions. A `panic` is an outcome (`None`, `Panic`, `false`) or a step that is not
enabled, and the contracts say exactly when it happens. Spinlocks are atomic acquire
and release steps. The disk is a sequence of blocks, a block write is atomic, and a
crash may come between any two. 32-bit wrap-around is written out where the code
depends on it. Whether memory is available to `sbrk` and the tables of kernel mappings
and of devices are parameters.

Four promises turn out to hold only under a condition; each has its exact condition and
a run or input that shows the failure.

- A log of `LOGSIZE` blocks, which is what mkfs.c:25 makes, is one block short of what
  `begin_op` reserves, and two callers of `log_write` can pass its unlocked size test
  together. Every run is crash safe exactly when the area has more than `LOGSIZE` blocks
  or only one (`LogReservation.CrashSafeExactly`; `LogReservation.OverrunCorrupts` is the
  run that overwrites a home block with nothing committed). On a smaller area a run is
  crash safe as long as no two such calls overlap (`LogReservation.UnracedCrashSafe`).
- Commit finds no buffer for a log block exactly when the blocks logged and the other
  buffers in use make up all `NBUF` (`LogBuffers.BreadStarvesExactly`). param.h makes
  `NBUF` equal to `LOGSIZE`, so with nobody else busy, in runs where the log fits its
  area, this can happen exactly when the area has more than `LOGSIZE` blocks
  (`LogBuffers.CommitStarvesExactlyWhen`): the sizes that rule out the overrun above are
  those that let a transaction pin every buffer.
- A killed writer's return from `pipewrite` is the only exit that skips waking readers,
  and the only way a reader can be left asleep beside data
  (`PipeProofs.StepKeepsSleepIff`, `PipeProofs.KilledWriterStrandsReader`).
- `malloc` returns a block that is in memory and large enough exactly when the request is
  at most 0x7FFFFFF0 bytes (`Umalloc.Allocator.Malloc`). Above that the byte count for
  `sbrk` is zero or negative as an int (`Umalloc.WrappedByteCount`,
  `Umalloc.NegativeByteCount`) or rounding the request up wraps
  (`Umalloc.WrappedRounding`).

## Model

| member | source | states |
|---|---|---|
| Words.GetPut | log.c:102-113 | a word stored in a block reads back, and every other word of the block keeps its value |
| LogFormat.DecodeEncode | log.c:86-113 | a header written and read back gives exactly the list of block numbers, for any previous contents of the header block |
| LogFormat.CommitAtomic | log.c:177-202 | commit cut short after any k of its block writes, then recovered after any crashes of recovery: no home block changed while k is at most n, the whole transaction applied once the header write is done |
| LogFormat.RecoveryIdempotent | log.c:116-122 | however often recovery is interrupted, and wherever, the attempt that finishes leaves the home blocks one undisturbed attempt would |
| LogFormat.RecoveryKeepsRecoverable | log.c:70-82 | after any number of recovery's own writes the same home blocks can still be recovered |
| LogProofs.StepKeepsInv | log.c:125-233 | every step of any caller, of the committer, of recovery, and a crash keep the log's invariant, for a log area of any size, as long as the list still fits it |
| LogProofs.CrashSafe | log.c:125-202 | for a log area of any size, after any run of any number of callers with any crashes in which the list fits the area, recovery would give the first recovered disk plus exactly the committed groups, and each operation is wholly in one group or in none |
| LogProofs.Durability | log.c:145-202 | in every run, for any log area, whenever no operation is active or a commit has written its header, every operation that no crash has cut off is finished and in a committed group, with all its writes |
| LogProofs.ReadsLatest | log.c:213-233 | in the same runs, between commits, the pinned buffers over the disk show the committed groups followed by the writes of the group being built |
| LogProofs.CommitExcludesWriters | log.c:125-174 | in every run, for any log area, no caller is inside an operation while a commit is in progress; a caller asleep in begin_op is one that could not be admitted and that somebody will wake |
| LogProofs.CommitterNeverStuck | log.c:192-202 | a commit or a recovery that has begun can always take its next step |
| LogProofs.EndKeepsBudget | log.c:145-174 | end_op keeps the count of outstanding operations and their budgets, and its panic on a commit in progress is unreachable |
| LogReservation.ReservationHolds | log.c:125-141 | in every run, for any log area, the blocks logged plus what active operations may still add are at most LOGSIZE |
| LogReservation.PanicExactly | log.c:213-219 | in every run, for any log area, log_write panics exactly when LOGSIZE blocks are logged or as many as the area has room for; a block new to its operation or not yet logged finds fewer than LOGSIZE |
| LogReservation.NewBlockPanicsExactly | log.c:213-219 | a write to a block that is not in the log can panic if and only if the log area has LOGSIZE blocks or fewer |
| LogReservation.AbsorbedWriteCanPanic | log.c:213-233 | even with room for everything reserved, a run reaches a write to an already logged block that panics, because the size test comes before the search |
| LogReservation.RaceOverrunsLog | log.c:213-233 | for every log area of 2 to LOGSIZE blocks a run makes the log name as many blocks as the whole area holds |
| LogReservation.LogFitsExactly | mkfs.c:25 | the logged blocks fit the log area in every run if and only if the area has more than LOGSIZE blocks, or only one |
| LogReservation.UnracedLogFits | log.c:213-233 | in a run where no two callers are between the size test and the lock of log_write at once, the list fits a log area of any size |
| LogReservation.UnracedCrashSafe | log.c:213-233 | such runs are crash safe for a log area of any size, the one mkfs makes included |
| LogReservation.OverrunCorrupts | log.c:178-190 | for every log area of 2 to LOGSIZE blocks a run ends with the home block after the area overwritten and nothing committed |
| LogReservation.CrashSafeExactly | mkfs.c:25 | every run is crash safe if and only if the area has more than LOGSIZE blocks, or only one |
| LogSerial.SerialCrashSafe | log.c:125-202 | after any run, crashes and overlaps included, up to a moment when no operation is active and the log is settled, and from there on operations that do not overlap: recovery gives what was committed at that moment and then the writes of the first operations since, whole and in order, missing at most the last |
| Log.CommitCrashSafe | log.c:193-202 | for each disk the code of commit passes through, recovery gives the old home blocks before the header write and the whole transaction from it on |
| Log.RecoveryCrashSafe | log.c:116-122 | each disk the code of recovery passes through recovers to the same home blocks |
| Log.RedoLog.WriteLog | log.c:178-190 | copies the pinned contents of every logged block to the log, one write per block, and unpins nothing |
| Log.RedoLog.WriteHeader | log.c:102-113 | one write makes the header block name the logged blocks |
| Log.RedoLog.ReadHeader | log.c:86-96 | the in-memory list becomes the one the header block names |
| Log.RedoLog.InstallTrans | log.c:70-82 | home blocks get the log's copies in order, one write each, and those buffers stop being pinned |
| Log.RedoLog.Commit | log.c:193-202 | is the machine's commit event by event; the disk passes through exactly CommitTrace, ends with the transaction applied and the header erased, and nothing stays pinned |
| Log.RedoLog.RecoverFromLog | log.c:116-122 | is the machine's recovery event by event; the disk passes through exactly RecoveryTrace and ends recovered with an erased header |
| Log.RedoLog.LogWrite | log.c:214-233 | panics exactly when the list is full for LOGSIZE or for the log area, or outside an operation; otherwise the block is in the list once and pinned with the new contents; inside an operation it is the machine's size test followed by its append |
| Log.RedoLog.BeginOp | log.c:126-141 | is the machine's begin event: the caller is then inside an operation, or waiting, in the state all the theorems about runs speak of |
| Log.RedoLog.EndOp | log.c:146-163 | is the machine's end event, waking the waiters; the caller told to commit is the one the machine makes its committer, and the panic is the one LogProofs.EndKeepsBudget shows unreachable |
| Log.RedoLog.EndCommit | log.c:169-172 | is the machine's finish event: commits are admitted again and the waiters wake |
| Log.ReadyToCommit | log.c:193-202 | what Commit demands holds in every state of the machine in which a commit begins |
| CacheProofs.StepKeepsInv | bio.c:61-141 | every step of bget, bread, log_write's pin, bwrite and brelse keeps the cache's invariant |
| CacheProofs.BreadReturnsLatest | bio.c:61-106 | after any run no block has two buffers, the list is a permutation of all buffers, and a valid buffer somebody holds has the latest contents anyone gave its block |
| CacheProofs.PinHolds | bio.c:79-91 | a dirty buffer keeps its block through every step but bwrite of that very buffer |
| CacheProofs.PinHoldsOverRuns | log.c:69-82 | a buffer pinned by log_write is not recycled over any run that does not install it |
| CacheProofs.GetPanicsExactly | bio.c:62-93 | bget panics exactly when the block is not cached and every buffer is in use or dirty |
| CacheProofs.CommitStarvesExactly | bio.c:79-93 | in every state of every run, with any number of users, the bread of an uncached block panics if and only if pinned buffers and clean buffers in use number NBUF; the latter are at most the busy users, and with none it is if and only if all are pinned |
| CacheProofs.FullTransactionStarvesCommit | bio.c:79-93 | both outcomes are reached: any k blocks pinned for every k up to NBUF, and with nobody busy the next bread of another block panics if and only if k is NBUF |
| LogBuffers.PinsAreLogged | log.c:213-233 | while a transaction is built and while it is copied to the log, with log and cache agreeing on what is pinned, as many buffers are pinned as blocks are logged |
| LogBuffers.BreadStarvesExactly | log.c:178-190 | for any log area the list fits, any cache size and any users, the bread of an uncached block then panics if and only if the blocks logged and the clean buffers in use number NBUF; not if the area and the busy users together are at most NBUF |
| LogBuffers.CommitStarvesExactlyWhen | param.h:11-12 | with NBUF buffers and nobody else busy, some run in which the log fits its area ends with commit finding no buffer if and only if the area has more than LOGSIZE blocks |
| Bio.UnlinkLinked | bio.c:132-133 | taking a buffer out of a doubly linked ring leaves the ring of the others, in order |
| Bio.InsertLinked | bio.c:134-137 | linking a buffer in at the head leaves the ring with it in front |
| Bio.BufferCache.constructor | bio.c:39-56 | binit links every buffer once, the last initialised first |
| Bio.BufferCache.Lookup | bio.c:69-77 | the forward scan finds the buffer of that block, or that there is none |
| Bio.BufferCache.LeastRecent | bio.c:81-91 | the backward scan finds the least recently used buffer that is neither in use nor dirty, or that there is none |
| Bio.BufferCache.Bget | bio.c:62-93 | a hit adds one reference; a miss recycles the least recent free clean buffer with valid cleared; only then the panic |
| Bio.BufferCache.Brelse | bio.c:121-141 | drops one reference, and on the last one moves the buffer to the front, keeping the ring |
| IdeMachine.StepKeepsInv | ide.c:73-168 | every step keeps the queue free of repeats, the head in flight, and issued equal to completed plus queued |
| IdeMachine.StepRefines | ide.c:104-131 | each driver step is either invisible on the in-memory disk or exactly one of its requests, which it would accept |
| IdeMachine.DriverRefinesMemory | memide.c:39-60 | after any run the disk and buffers are those of the in-memory disk after the same requests one at a time, in issue order; only the queue's head is in flight |
| IdeMachine.ReturnsWhenDone | ide.c:161-167 | iderw returns only after as many of its buffer's requests took effect as were issued |
| IdeMachine.NeverStuck | ide.c:104-168 | while some iderw has not returned, the device, the interrupt handler or that iderw can go on |
| Ide.Driver.Iderw | ide.c:138-159 | walking the linked queue, it appends the request and starts the disk exactly when the queue was empty |
| Ide.Driver.Ideintr | ide.c:104-131 | completes the head, reads data for a read, and starts the next request, keeping the linked queue |
| Bitmap.UsedPut | fs.c:70-96 | setting or clearing one block's bit changes that block's bit and no other |
| Bitmap.TakenUsed | fs.c:57-78 | taking a data block marks it and leaves every other block's bit |
| Inode.EntryEffect | fs.c:379-389 | a free block put in one of the thirteen entries keeps the bitmap exact, moves no named block, and leaves contents and others' blocks alone |
| Inode.IndirectEffect | fs.c:390-397 | the same for an entry of the indirect block |
| FileContent.ChunkByte | fs.c:499-505 | one turn of writei's loop gives the bytes of the chunk and keeps every other byte of the file |
| FileContent.WriteExact | fs.c:482-512 | a write inside or at the end of a file without holes leaves none below its new size, and no block beyond it if there was none |
| FileContent.NoGrowthSameAddrs | fs.c:507-510 | a write that does not grow the file changes no entry of addrs, so skipping iupdate loses nothing |
| FileContent.ChunkBudget | file.c:126-133 | a write of at most three blocks' bytes touches and takes at most eight blocks in all, because a misaligned first block exists already |
| Dinode.ReadWriteDino | fs.c:222-237 | an inode written to its block reads back field by field, and the other inodes of the block keep theirs |
| Volume.TiedConsistent | fs.c:373-436 | an operation that keeps one inode tied to its share of the bitmap and others' blocks and inodes as they were keeps the whole file system consistent |
| Volume.OtherBytes | fs.c:482-512 | an operation on one inode changes no byte of any other file |
| Trunc.FreedEnd | fs.c:409-436 | when itrunc has visited all 141 places the bitmap marks exactly the rest, and the free count has grown by the inode's blocks |
| Settle.WriteSettles | fs.c:482-512 | writei's loop, then iupdate if the file grew, leaves the inode on disk equal to the one in memory |
| Settle.WriteContent | fs.c:482-512 | the file's contents after writei are the old ones with the bytes spliced in |
| Fs.FileSystem.Balloc | fs.c:57-78 | takes the lowest free block, marked and zeroed, changing nothing else; fails exactly when no block is free |
| Fs.FileSystem.Bfree | fs.c:82-96 | clears one bit; panics exactly when it is clear already |
| Fs.FileSystem.Bmap | fs.c:374-401 | returns the file block's disk block, taking exactly the missing ones; panics exactly out of range or when fewer blocks are free than missing; bounds what it logs |
| Fs.FileSystem.Iupdate | fs.c:222-237 | the inode on disk becomes the one in memory, in one logged block |
| Fs.FileSystem.Ifill | fs.c:299-312 | the inode in memory becomes the one on disk |
| Fs.FileSystem.Readi | fs.c:454-477 | of a file without holes below its size, returns exactly the requested slice of the contents, cut at the size, allocates nothing and never panics; fails exactly for an offset past the end or a wrapping sum |
| Fs.FileSystem.CopyIn | fs.c:499-505 | the loop's whole effect: bytes, blocks taken, blocks logged, and its panic exactly when too few blocks are free |
| Fs.FileSystem.Writei | fs.c:483-512 | of a file without holes below its size: contents spliced, size the maximum, file system still consistent, other files unchanged, inode written through; the exact conditions for failure and for panic; the blocks it logs |
| Fs.FileSystem.Itrunc | fs.c:409-436 | frees exactly the inode's blocks, cannot panic, leaves an empty file and every other file alone; logs only bitmap blocks and the inode's, so at most one more than there are bitmap blocks |
| Trails.TrailHolds | fs.c:482-512 | after any sequence of transactions of one filewrite and operations of others on other inodes, the file system is consistent and the file is the one at the start with the bytes of its transactions spliced in |
| Trails.TrailSpares | fs.c:482-512 | if all of them are the filewrite's, every other file is as at the start |
| Trails.ChunksBytes | file.c:133-152 | the bytes of its transactions are the first chunks of the source, as many as there were transactions |
| File.OpBudget | file.c:126-133 | one chunk logs at most MAXOPBLOCKS blocks for any offset and any disk |
| File.Filewrite | file.c:118-156 | every transaction stays within MAXOPBLOCKS, its log_writes turn the disk before it into the disk after it, and it splices the next whole chunk into a consistent disk with other files unchanged; on success all bytes are in; on failure the next chunk would not fit |
| FileCrash.FilewriteCrashSafe | file.c:126-152 | after any run up to a settled moment, a filewrite's transactions and others' operations on other inodes follow one another, making the log_writes that File.Filewrite reports; stop the machine anywhere and recover: the file system is consistent and the file is the old one with a whole number of chunks spliced in, those of every operation but perhaps the last; with no operations of others, every other file is unchanged |
| SleepProofs.StepKeepsInv | sleeplock.c:22-42 | every lock step, field access, wakeup slot and dispatch keeps the sleeplock's invariant |
| SleepProofs.MutualExclusion | sleeplock.c:23-53 | after any run at most one process holds the sleeplock, and holdingsleep answers for exactly that one |
| SleepProofs.NoLostWakeup | proc.c:641-699 | after any run a process asleep on an unlocked sleeplock has a releaser still to look at its slot; none is asleep on an unlocked one whose spinlock is free |
| SleepProofs.NeverStuck | proc.c:641-725 | while any process is between idle and asleep on a locked sleeplock, some process can take a step |
| PipeMachine.Counters | pipe.c:85-114 | with 32-bit counters, full and empty still mean what they say |
| PipeProofs.PipeIsFifo | pipe.c:79-121 | over any run the bytes taken are a prefix of the bytes put in, at most PIPESIZE are inside, and a reader has got exactly the last bytes taken |
| PipeProofs.StepKeepsSleepIff | pipe.c:83-98 | a step keeps every sleeper justified if and only if it is not a killed writer's return past a sleeping reader |
| PipeProofs.SleepersHaveCause | pipe.c:59-121 | on runs without such a return, with the lock free, a sleeping writer means full and open for reading, a sleeping reader empty and open for writing |
| PipeProofs.KilledWriterStrandsReader | pipe.c:86-89 | a run that ends with the lock free, a reader asleep and PIPESIZE bytes in the pipe |
| ProcProofs.StepKeepsInv | proc.c:347-486 | every locked section of fork, exit, wait and kill, and fork's unlocked writes, keep the process tree's invariant |
| ProcProofs.ProcessTreeSafe | proc.c:402-486 | after any run no parent is UNUSED or ZOMBIE, a process asleep in wait has a child and no ZOMBIE child, and pids but 0 are distinct |
| ProcProofs.ReapedByParent | proc.c:457-474 | a step that turns a ZOMBIE into UNUSED is the wait of its current parent |
| ProcProofs.RootIsInit | proc.c:429-436 | following parents from any process leads to init |
| Proc.ProcTable.constructor | proc.c:269-301 | the table after userinit |
| Proc.ProcTable.Allocproc | proc.c:223-241 | takes the first UNUSED slot with a new pid, or finds none |
| Proc.ProcTable.Wakeup1 | proc.c:682-690 | wakes the sleeper on that address and nobody else |
| Proc.ProcTable.Exit | proc.c:424-440 | wakes the parent, gives children to init, wakes init exactly if it inherits a ZOMBIE, becomes one |
| Proc.ProcTable.Wait | proc.c:453-485 | reaps the first ZOMBIE child; otherwise sleeps exactly when it has a child and is not killed |
| Proc.ProcTable.Kill | proc.c:705-725 | marks and wakes the first slot with that pid; fails exactly when there is none |
| SchedMachine.StepKeepsInv | proc.c:548-616 | every step of any CPU's scheduler and of the process on it keeps who runs where |
| SchedMachine.RunningOnOneCpu | proc.c:566-574 | after any run, with ptable.lock free, a process is RUNNING if and only if a CPU's proc points to it, and then only one's |
| SchedPass.DispatchedOncePerPass | proc.c:557-578 | in one pass of one CPU a process that stays in a container is dispatched once if RUNNABLE when looked at in that container's turn and not otherwise, is looked at if the container stays CWAITING, and is dispatched only if the container was CWAITING when its turn began |
| SchedPass.DispatchNeedsWaiting | proc.c:557-566 | over every run, a CPU about to dispatch a process began the turn of the container it takes it from, found it CWAITING, and has been in that turn since |
| SchedPass.StepLooks | proc.c:557-576 | a pass leaves a slot behind only by looking at it or by skipping the turn of a container that is not CWAITING |
| Paging.WordOfEntry | vm.c:41-53 | every entry of the modelled memory is one 32-bit word, from which page frame, present bit and flags are recovered |
| Paging.EntryOfWord | vm.c:41-53 | every 32-bit word is one entry of the modelled memory |
| Paging.LookupRole | vm.c:36-55 | a user page is mapped exactly when some page of memory has the role of being mapped there |
| Paging.NoSharing | vm.c:316-345 | no page of memory is mapped at two places, in one address space or in two |
| Vm.Machine.Kalloc | kalloc.c:83-95 | hands out a page that was free and is nobody's; fails exactly when none is free |
| Vm.Machine.Kfree | kalloc.c:60-77 | the page joins the free list and no other page changes role or contents; memory stays in order if nothing named the page |
| Vm.Machine.Freerange | kalloc.c:47-53 | frees exactly the pages of the range |
| Vm.Machine.Walk | vm.c:36-55 | finds or makes the page table without changing any mapping; fails exactly when it may not or cannot make one |
| Vm.Machine.MapPage | vm.c:61-80 | maps one user page and changes no other mapping, or changes nothing; the panic for a page already mapped is not reached |
| Vm.SkipTable | vm.c:266-268 | no page is mapped in the 4MB that deallocuvm jumps over |
| Vm.Machine.Deallocuvm | vm.c:256-279 | exactly the pages between the sizes become free; everyone else's pages and mappings stay; a space that mapped exactly the pages below the old size maps exactly those below the one returned |
| Vm.Machine.Allocuvm | vm.c:222-249 | new zeroed writable pages up to the new size, or every mapping as before and only page tables kept |
| Vm.Machine.Freevm | vm.c:284-298 | the directory, its tables and its user pages become free, and no other page changes |
| Vm.Machine.Setupkvm | vm.c:119-136 | a directory with exactly the kernel mappings of the table and no user page, mappages never finding a page mapped already, or everything as before |
| Vm.Machine.Copyuvm | vm.c:316-345 | same kernel mappings, and at every page below the size an equal copy with equal flags in a page that was free; or everything as before |
| FreeList.InsertOk | umalloc.c:33-43 | putting a block in with its joins keeps the list ordered, apart and fully coalesced |
| FreeList.InsertCovers | umalloc.c:33-43 | the free units afterwards are the old ones and the block's, no more and no fewer |
| FreeList.RemoveCovers | umalloc.c:75-84 | taking a block or its tail takes exactly those units |
| Umalloc.InsertRing | umalloc.c:33-42 | the pointers still lead through every free block in address order with one wrap |
| Umalloc.UnitsEnough | umalloc.c:69 | the units hold the request beside their header if and only if the rounding does not wrap |
| Umalloc.RequestBound | umalloc.c:52-69 | a request is at most 0x7FFFFFF0 if and only if neither the rounding nor the byte count for sbrk wraps and the count is positive as an int |
| Umalloc.NoMemoryForMore | umalloc.c:52-54 | for any larger request whose rounding does not wrap, sbrk gives no memory and may take some, and reports failure only when it takes all |
| Umalloc.WrappedByteCount | umalloc.c:54 | at 0xFFFFFFF8 the call is sbrk(0), which succeeds |
| Umalloc.NegativeByteCount | user.h:23 | at 0x7FFFFFF1 the count arrives as -2^31, and sbrk succeeds without giving memory |
| Umalloc.WrappedRounding | umalloc.c:69 | at 0xFFFFFFF9 malloc looks for one unit |
| Umalloc.Allocator.Place | umalloc.c:30-32 | the search ends at two neighbours of the ring between which the block fits |
| Umalloc.Allocator.Splice | umalloc.c:33-43 | the pointer work leaves exactly the list with the block put in and joined to the neighbours it touches |
| Umalloc.Allocator.Link | umalloc.c:30-43 | afterwards the ring is correct and covers the old free units and the block's, no more and no fewer |
| Umalloc.Allocator.Free | umalloc.c:25-44 | the block is no longer live; live and free units still partition the units obtained |
| Umalloc.Allocator.Morecore | umalloc.c:47-61 | passes sbrk the product as a 32-bit int; unless sbrk fails, the units the new header claims join the free units and some block is now large enough; all units stay in memory if the product did not wrap |
| Umalloc.Allocator.Malloc | umalloc.c:64-90 | a new live block apart from all others, after at most one morecore; in memory and large enough if and only if the request is at most 0x7FFFFFF0; fails only when sbrk does |
| ShellLex.GetToken | sh.c:266-308 | the next token, its two ends, and the cursor past the space after it |
| ShellLex.Peek | sh.c:311-320 | whether the next character but space is one of those asked for |
| ShellParse.ParseRedirs | sh.c:375-397 | the run of redirections at the cursor, in order |
| ShellParse.ParseExec | sh.c:416-446 | a bracketed command, or words and redirections up to what ends them, fewer than MAXARGS words |
| ShellParse.ParseBlock | sh.c:400-413 | a bracketed line and its redirections |
| ShellParse.ParsePipe | sh.c:362-372 | commands joined by bars, grouped to the right |
| ShellParse.ParseLine | sh.c:345-359 | a pipeline, its ampersands, and what follows a semicolon |
| ShellGrammar.LineSound | sh.c:345-446 | whatever the parser takes at any position is a line of the grammar, and the tree it builds is the one the grammar gives that line |
| ShellGrammar.LineComplete | sh.c:345-446 | every line of the grammar, before a closing bracket or the end, is taken whole and gives its tree |
| ShellGrammar.ParsesExactly | sh.c:328-446 | for every text and tree, the parser gives that tree with nothing left over if and only if the text's tokens derive it |
| ShellGrammar.Unambiguous | sh.c:328-446 | no text derives two trees |
| ShellRoundTrip.LexRender | sh.c:266-308 | lexing undoes rendering for every sequence of tokens |
| ShellRoundTrip.DerivationTree | sh.c:345-446 | every tree has a derivation, the fully bracketed one |
| Shell.ParsesText | sh.c:328-342 | any text with the tokens of the bracketed tree, however spaced, parses to the tree with nothing left over |
| Shell.RoundTrip | sh.c:328-342 | printing a tree and parsing the text gives the tree back |
| Shell.TooManyArgs | sh.c:438-440 | the bound on words is exact: MAXARGS plain words panic |
| Shell.LineWords | sh.c:345-446 | every argument and file name of every parse is a whole word of the text |
| Shell.WordsAreStrings | sh.c:450-493 | after nulterminate each of them is the C string of exactly its characters |
| Shell.NulTerminate | sh.c:450-493 | writes a NUL at the end of each word of the tree and nowhere else |
| Shell.ParseCmd | sh.c:328-342 | succeeds exactly when the line derives some tree; its result is then that tree, its words C strings in the buffer |
| Grep.MatchHere | grep.c:85-96 | true if and only if some prefix of the text is in the pattern's language, all of it if the pattern ends in a dollar |
| Grep.MatchStar | grep.c:99-106 | true if and only if some number of fitting characters can be skipped before the rest matches |
| Grep.Match | grep.c:73-82 | true if and only if the pattern matches somewhere, or at the start after a caret |

## Left out

- Boot, assembly, interrupt controllers, console and serial port: machine setup.
- Spinlock internals and memory ordering: acquire and release are taken as atomic.
- Directories, path names, `ialloc`, `iget`, `iput` and the system calls above them: they add bookkeeping, not harder properties.
- Container system calls and `container_malloc`; container file isolation, which the code does not keep as an invariant.
- `destroyContainer` and `listContainersHelper`: the first can reach a reaped slot through its stale container number, the second returns with ptable.lock held.
- `containerInit`: the scheduler model takes container k to have containerID k, as it sets up.
- The streaming loop of grep, and mkfs as a program.
- Device inodes and device errors: a transfer on a device inode ends in the outcome `Device`, and the disk driver sees one interrupt per command.
- IdeMachine: spurious interrupts are excluded; the two disks are one sequence of blocks.
- PipeMachine: sleep and wakeup are single steps under the pipe's lock, which SleepProofs justifies for a sleeplock; a process has its end of the pipe open while it is in a call on it.
- ProcMachine: pids do not wrap; sections under ptable.lock are single steps; files and memory of a process are not modelled.
- SchedMachine: processes change container, and are changed by others, only with ptable.lock free.
- LogMachine: a commit whose list has outgrown the log area is not followed past its block copies, which have by then overwritten a home block.
- FileCrash.FilewriteCrashSafe: operations do not overlap from the moment the filewrite begins; others' operations are on other inodes and leave the file system consistent.
- LogMachine: each operation writes at most MAXOPBLOCKS distinct blocks, as its callers must see to and File.Filewrite does.
- Fs: the buffer cache and the log are seen through as one current disk and the set of blocks logged; `bfree` does not reread the superblock.
- File.Filewrite: the offset plus the count is taken to be below 2^32, as it is for an offset inside any file and a signed 32-bit count.
- Vm: the free list is a sequence, not links inside the free pages; `copyout`, `inituvm` and `loaduvm` are not modelled.
- Umalloc: addresses count header-sized units, so the process size is taken to be a multiple of one; whether the kernel finds the pages `sbrk` asks for is a parameter; a call of `malloc` is specified from states whose units are all in memory, which requests within the bound keep.
- ShellParse: an exec node and the redirections around it are built together at the end, where parseexec fills the node in place after wrapping it.
- Grep.Match: a pattern or text is what precedes its NUL.
