# Verified models of xv6 and its event queue

This project models, in Dafny 4.11, the parts of xv6-riscv whose correctness is hard to see by reading one
function: the redo log and the buffer cache under it, block allocation and file content, sleep and wakeup with
the kernel event queue, pipes, the virtio disk driver, Sv39 page tables over the page allocator, and three
user-level algorithms (the K&R allocator, the shell's parser and grep's matcher). `dafny verify dfyconfig.toml`
checks all of it.

How the parts are modelled:

- Code that changes things in place is a class whose methods have the loops of the source, proved against a
  specification on values. Interleavings are state machines: one step is what a process does between taking and
  releasing a lock, a run is a sequence of states and of who did what, and theorems are about every state of every
  run. What a run should come to is told from who called what in it, and proved of its states.
- The disk is a map from block numbers to contents. One `bwrite` is one atomic step, and a crash may come between
  any two steps, also during recovery.
- A `panic` is a result or a state of its own; theorems say that it is not reached, or exactly when it is.
- What comes from outside is a parameter: whether `copyin`, `copyout` and `sbrk` succeed and how far (`avail`,
  `room`, `granted`), the time of an event, when a process is killed, and the order in which the device serves
  requests. `either_copyin` is all or nothing.
- Machine integers are written out where they matter: 32-bit pipe counters and file offsets, 16-bit ring indices,
  the `int` argument of `sbrk`, little-endian words, bitmap bytes, page table entries.
- Table sizes (`NEVENT`, `PIPESIZE`, `NBUF`, `LOGBLOCKS`, `MAXOPBLOCKS` of the log, the number of processes and of
  descriptors) are parameters.

| file | what it models |
|---|---|
| `CrashLog.dfy` | the log on disk: the write lists of commit and recovery, crashes |
| `GroupCommit.dfy` | `begin_op`, `log_write`, `end_op`, commit, crash and recovery as interleaved steps |
| `LogHistory.dfy` | the same runs told from the calls made in them |
| `FullLog.dfy` | a run of these that fills the log |
| `BufferCache.dfy` | `kernel/bio.c`: the linked LRU list, references, locks and pins |
| `BufferUse.dfy` | the runs of the cache told from the calls made in them |
| `RedoLog.dfy` | `kernel/log.c` as a class running on the buffer cache |
| `BlockBits.dfy`, `FsModel.dfy`, `FileContent.dfy`, `FileTrunc.dfy`, `FileSystem.dfy` | `kernel/fs.c` from `balloc` to `itrunc`, and `filewrite` |
| `KQueue.dfy` | the event ring |
| `Processes.dfy` | `sleep`, `wakeup`, sleeplocks, the event queue, `fork`, `exit`, `wait`, `kill` as interleaved steps |
| `ProcessCalls.dfy`, `ProcessLife.dfy`, `ProcessWork.dfy` | what those calls achieve, the life of a process, and how long a call can take |
| `Pipe.dfy`, `PipeCalls.dfy` | `kernel/pipe.c`, with wrapping counters and interleaved readers and writers; what its calls do and return |
| `Virtio.dfy`, `VirtioCalls.dfy` | `kernel/virtio_disk.c` against a device; what a call asks for and gets |
| `PageBits.dfy`, `PageTable.dfy`, `PageFree.dfy`, `VmModel.dfy`, `PageCost.dfy`, `Vm.dfy` | `kernel/kalloc.c`, `kernel/vm.c` and the memory side of `kernel/proc.c` |
| `Umalloc.dfy`, `Grep.dfy` | `user/umalloc.c`, `user/grep.c` |
| `Shell.dfy`, `ShellGrammar.dfy`, `ShellPrint.dfy` | the parser of `user/sh.c`, the grammar it accepts, and printing lines that it reads back |
| `Basics.dfy`, `Break.dfy`, `Modular.dfy` | shared definitions, what `sbrk` does to the break, arithmetic |

Where the code and its own documents disagree, the model follows the code. Several of the Markdown files describe
a `wakeup_lock` and a `wakeup_flag`; the code has neither, and `sleep` posts its event after releasing `p->lock`
(`kernel/proc.c:664-673`), which is what `Processes.dfy` models.

## Model

| member | source | states |
|---|---|---|
| `CrashLog.HeadRoundTrip` | kernel/log.c:87-115 | the list of block numbers written into a header block is the list read back from it, whatever the block held before |
| `CrashLog.CommitIsAtomic` | kernel/log.c:179-204 | after any number of commit's block writes, recovery gives exactly the old home blocks if the header write is not among them, and exactly the new ones if it is; after all of them the log is empty and the new blocks are home |
| `CrashLog.RecoveryIsIdempotent` | kernel/log.c:66-124 | after any number of recovery's block writes the disk still recovers to the same home blocks; a finished recovery has them in place and an empty log |
| `CrashLog.CrashesPreserve` | kernel/log.c:117-124 | any number of recoveries, each cut off anywhere, leave the recovered home blocks the same |
| `CrashLog.CrashAtomicity` | kernel/log.c:66-204 | crash anywhere in commit, crash any number of times in recovery, then let one recovery finish: the home blocks are all old or all new, and which depends only on whether the header had been written |
| `GroupCommit.GroupCommitTheorem` | kernel/log.c:127-236 | in every state of every interleaving with crashes anywhere, a crash and a recovery leave the effect of a prefix of the recorded `log_write`s that belongs to finished operations only and splits none; while the system is up, cache over disk shows all of them; `LogHistory.HistoryIsAsked` says that the record is what was called |
| `GroupCommit.NoPanicInAnyRun` | kernel/log.c:127-176 | committing means no operation is outstanding; none outstanding and no commit running means an empty log; log slots in use plus unspent budgets fit in the log; no panic of the log is reached, and recovery can always read the header |
| `GroupCommit.LogWritePanicsExactly` | kernel/log.c:215-236 | inside a transaction `log_write` panics if and only if the log is full, even for a block it would only absorb; an operation with budget left never finds it full |
| `FullLog.AbsorbedPanics` | kernel/log.c:215-236 | from every boot, when whole budgets can use up the log, a run after which operations are open, the log is full, and `log_write` panics for each of them and each block already in the log |
| `GroupCommit.DurableForever` | kernel/log.c:117-204 | what is durable in one state of a run is durable, unchanged, in every later one |
| `LogHistory.HistoryIsAsked` | kernel/log.c:214-236 | in every run, the `log_write`s on record are those called, in order, with their operations, blocks and data; a crash forgets exactly those that were not durable |
| `LogHistory.LogWriteTakes` | kernel/log.c:214-236 | after a `log_write` the block is in the log once, its cached contents are the data given, every other block of the log and of the cache is as it was, and there was no panic |
| `LogHistory.OutstandingIsOpen` | kernel/log.c:126-176 | the number of outstanding operations is the number of `begin_op`s without an `end_op` since the last crash |
| `LogHistory.DurableIsEnded` | kernel/log.c:145-204 | every durable `log_write` is of an operation whose `end_op` has been called |
| `LogHistory.EveryLogWriteCounts` | kernel/log.c:127-236 | from the calls alone: in every state of every run a crash and recovery leave the effect of a prefix of the `log_write`s called, all of ended operations; while the system is up, cache over disk shows every `log_write` called, and with no operation open all of them are durable |
| `LogHistory.CommitFinishes` | kernel/log.c:145-204 | a commit under way can always be finished: there are steps that make every `log_write` so far durable and leave the log empty |
| `LogHistory.LastEndCommits` | kernel/log.c:145-176 | the `end_op` that leaves no operation outstanding starts a commit, and no other does |
| `LogHistory.RecoveryFinishes` | kernel/log.c:117-124 | after power loss, also during a recovery, there are steps that bring the system up with an empty log and home blocks as the durable `log_write`s say |
| `BufferCache.Cache.constructor` | kernel/bio.c:36-53 | `binit` links every buffer into one ring and the cache agrees with the disk |
| `BufferCache.Cache.Find` | kernel/bio.c:65-73 | the first loop of `bget`: a buffer of the block if there is one anywhere in the list, and "not cached" only if there is none |
| `BufferCache.Cache.FindFree` | kernel/bio.c:75-88 | the second loop of `bget`: the least recently used unreferenced buffer, or none only if all are referenced |
| `BufferCache.Cache.Bget` | kernel/bio.c:58-89 | the cached buffer, locked, or with the caller queued for its lock if another process has it; else the least recently used free buffer made to stand for the block; "no buffers" exactly when every buffer is referenced and none holds the block |
| `BufferCache.Cache.Bread` | kernel/bio.c:92-103 | a locked valid buffer holding the latest contents of the block, unless the caller has to wait for its lock; no other buffer changes |
| `BufferCache.Cache.SetData` | kernel/fs.c:51-60 | a caller such as `bzero` changing a locked buffer marks it dirty and leaves what readers see unchanged |
| `BufferCache.Cache.Bwrite` | kernel/bio.c:106-112 | one block write, which makes the buffer's data the block's latest contents |
| `BufferCache.Cache.MoveToFront` | kernel/bio.c:128-134 | the six pointer assignments keep one ring and move just that buffer to the front |
| `BufferCache.Cache.Brelse` | kernel/bio.c:116-137 | drops lock and reference, and moves the buffer to the front if it was the last one |
| `BufferCache.Cache.Bpin` | kernel/bio.c:139-144 | a pinned block counts as the block's latest contents before it is on disk |
| `BufferCache.Cache.Bunpin` | kernel/bio.c:146-151 | undoes the pin of a block that is home |
| `BufferCache.CacheIsPlainDisk` | kernel/bio.c:58-151 | in every interleaving of readers, writers, releases and pins, a clean buffer holds what a plain disk with the same published writes would hold, no block is in two buffers, and a pinned block stays cached and referenced |
| `BufferUse.BuffersAreUsed` | kernel/bio.c:58-151 | in every run, the references of a buffer are the processes between `bget` and the end of `brelse`, and one for the log; its lock is held between `acquiresleep` and `releasesleep`; it stands for the block last asked for, and holds what was last read or put into it |
| `BufferUse.LockIsExclusive` | kernel/bio.c:58-125 | from one process's acquisition of a buffer's lock until the next release the buffer is locked and nobody else gets the lock |
| `BufferUse.BlocksAreWritten` | kernel/bio.c:106-151 | what blocks mean, what is on disk and what is pinned, as the calls of `bwrite`, `log_write` and `bunpin` make them |
| `BufferUse.ReadGivesLastWrite` | kernel/bio.c:91-112 | in every interleaving, a process that has read block b has in its buffer what the writes of all processes so far have made of b, unless it has changed the buffer itself |
| `BufferCache.FreeBufferExactly` | kernel/bio.c:75-88 | there is a free buffer if and only if the logged and the held blocks are fewer than the buffers |
| `RedoLog.RoomExactly` | kernel/log.c:179-192 | commit's first `bread`, of a log block, gets a buffer if and only if the logged blocks and those other processes hold are fewer than the buffers |
| `RedoLog.CommitIsCrashSafe` | kernel/log.c:178-204 | at each point of a trace of commit's writes, a crash recovers to all of the old home blocks or all of the new ones |
| `RedoLog.RecoveryIsCrashSafe` | kernel/log.c:117-124 | at each point of a trace of recovery's writes, a crash recovers to the same home blocks |
| `RedoLog.Log.constructor` | kernel/log.c:53-63 | `initlog`: the recovered blocks are home, nothing is pinned, the log is empty |
| `RedoLog.Log.WriteLog` | kernel/log.c:178-192 | writes the pinned blocks to the log slots, in order, and nothing else; or hits "no buffers" at its first `bread`, exactly when there is no buffer left, with nothing changed |
| `RedoLog.Log.WriteHead` | kernel/log.c:103-115 | writes the header for the list in memory, and nothing else |
| `RedoLog.Log.ReadHead` | kernel/log.c:86-98 | the list in memory becomes the one on disk |
| `RedoLog.Log.InstallTrans` | kernel/log.c:66-84 | copies every log slot home in order, and outside recovery releases each pin exactly once |
| `RedoLog.Log.Commit` | kernel/log.c:194-204 | commit through the cache empties the log, moves every logged block home, unpins everything, leaves what readers see, and its own trace of block writes is crash-atomic, also while other processes hold buffers of other blocks; it panics exactly when something is logged and that and what others hold take up every buffer, and then nothing has changed |
| `RedoLog.Log.RecoverFromLog` | kernel/log.c:117-124 | recovery through the cache puts the recovered blocks home, and its trace is crash-safe |
| `RedoLog.Log.BeginOp` | kernel/log.c:126-143 | admits an operation exactly when no commit runs and its whole budget still fits |
| `RedoLog.Log.LogWrite` | kernel/log.c:214-236 | panics exactly when the log is full or no operation is open; otherwise the block is in the list once and pinned once, and its buffer is what readers see |
| `RedoLog.Log.EndOp` | kernel/log.c:145-176 | its panics, exactly: while committing, or no buffer for the commit; the last operation commits, crash-atomically, and any other changes nothing on disk |
| `BlockBits.SetBitIs` | kernel/fs.c:66-106 | setting or clearing a bitmap bit changes that bit and no other |
| `BlockBits.PutWordIs` | kernel/fs.c:428-437 | storing an entry of an indirect block changes that entry and no other, and it reads back |
| `FsModel.NoSharing` | kernel/fs.c:66-106 | no block is reachable from two inode slots |
| `FsModel.AllocKeeps` | kernel/fs.c:405-444 | putting a free block in an empty slot keeps ownership exact: the set bits are the metadata blocks and the reachable ones |
| `FsModel.FreeKeeps` | kernel/fs.c:448-476 | emptying a slot and clearing its block's bit keeps ownership exact |
| `FileSystem.Disk.constructor` | kernel/fs.h:8-12 | the initial file system that mkfs leaves: only its own blocks in use, every file empty |
| `FileSystem.Disk.Balloc` | kernel/fs.c:65-89 | the first block whose bit is clear, now set and zeroed; 0 exactly when there is none |
| `FileSystem.Disk.Bfree` | kernel/fs.c:91-106 | clears that bit only, or panics exactly for a block that is free; `Itrunc` never reaches that |
| `FileSystem.Disk.Bmap` | kernel/fs.c:405-444 | the file's block, the old one if there is one, else a zeroed one nobody owns, else 0 with the disk full; no other slot of any file changes; every block with a changed byte is logged; what is logged is the new blocks, the bitmap block of each and the indirect block, and nothing if the block was there |
| `FileSystem.Disk.Iupdate` | kernel/fs.c:226-242 | the inode's copy on disk is the one in memory; no other changes |
| `FileSystem.Disk.Writei` | kernel/fs.c:528-562 | the file is its old bytes with exactly the returned number of bytes replaced at `off`, and every other file is as it was; -1 exactly for a bad range, and then nothing changes; every block of file, address or bitmap with a changed byte is logged, and so is the inode; a short count only with the disk full or the source unreadable; at most two blocks are logged for each block of the range and for the indirect block, one for a block it starts in the middle of, and one for the inode |
| `FileSystem.Disk.Readi` | kernel/fs.c:494-519 | exactly the slice of the file, or 0 past its end, or -1 if the destination cannot take it; no allocation, no change, nothing logged |
| `FileSystem.Disk.Itrunc` | kernel/fs.c:448-476 | the file is empty, exactly its blocks are free, and every other file keeps its bytes; every bitmap block with a changed byte is logged, and so is the inode |
| `FileSystem.Disk.WriteChunk` | kernel/file.c:149-164 | one transaction of `filewrite` logs at most `MAXOPBLOCKS` blocks, on every disk, and at most 7 when one bitmap block covers the disk |
| `FileSystem.Disk.Filewrite` | kernel/file.c:149-174 | returns the whole length exactly when all bytes are in the file, else -1 with a prefix in it and one of the listed reasons; the offset moves by what was written |
| `KQueue.Queue.constructor` | kernel/proc.c:68-75 | the ring starts empty |
| `KQueue.Queue.KqueuePost` | kernel/proc.c:78-102 | refines a bounded first-in first-out queue: the new event comes last, and only when it is full is the oldest one, and no other, dropped |
| `KQueue.Queue.KqueueTake` | kernel/proc.c:120-138 | the oldest event leaves, or there is none and the caller sleeps; events leave in the order they were posted, each at most once |
| `Processes.NoLostWakeups` | kernel/proc.c:640-692 | in every run, a process asleep on the event queue, a sleeplock or itself still lacks what it waits for whenever the lock of that condition is free, and otherwise a wakeup on that channel is under way; this survives the event posted inside `sleep` |
| `Processes.WakeupReachesAll` | kernel/proc.c:676-692 | a `wakeup` that has scanned the table leaves nobody asleep on its channel |
| `Processes.ProcessTree` | kernel/proc.c:354-464 | in every run, parents lead from every started process to init through live processes with ever smaller pids, also while `fork`, `exit` and `reparent` are half done |
| `Processes.ReapedAtMostOnce` | kernel/proc.c:466-513 | no pid is returned by `wait` twice |
| `Processes.ZombiesAreKept` | kernel/proc.c:421-513 | a zombie is still there at any later point, or its pid has been returned by `wait` |
| `Processes.RunKeeps` | kernel/proc.c:640-716 | the invariant of locks, sleepers, wakeups in progress, parents and pids holds in every state of every run |
| `ProcessCalls.SleeplocksAreExact` | kernel/sleeplock.c:21-41 | in every run, a sleeplock is taken exactly if an `acquiresleep` of it has returned and no release has followed; `acquiresleep` returns only while it is free |
| `ProcessCalls.SleeplockExclusive` | kernel/sleeplock.c:21-41 | from a process's return from `acquiresleep` until the next release the lock is taken and nobody else returns from `acquiresleep` |
| `ProcessCalls.EventsAreCounted` | kernel/proc.c:78-138 | in every run, the events posted are those that a `kqueue_wait` has returned, those dropped by a full queue, and those queued; `kqueue_wait` returns only with an event |
| `ProcessCalls.CallsAchieve` | kernel/proc.c:640-674 | a call that returns has done just once what it is for: posted its event, released its lock, started its child and posted that; one that waits has posted an event for each of its sleeps, but for those on the event queue; `exit` does not return |
| `ProcessCalls.KwaitReturns` | kernel/proc.c:466-513 | `wait` returns when it has reaped a zombie child, or could not copy out the status of one, or has no zombie child and is killed or has no child at all |
| `ProcessCalls.KwaitSleeps` | kernel/proc.c:499-511 | and it goes to sleep only with children, none of them a zombie, and not killed |
| `ProcessLife.LifeCycle` | kernel/proc.c:200-716 | in every step of every run: which changes of `p->state` there are and who makes each, that parents change only by `fork`, by the parent's `exit`, to init, and by `wait`, and that a slot keeps its process until `wait` frees it |
| `ProcessLife.KilledExactly` | kernel/proc.c:694-716 | in every run, a process is killed exactly if `kill` has been called on it since it was made |
| `ProcessLife.ProcessesAreKept` | kernel/proc.c:354-513 | at any later point a process is in its slot under its pid, still killed if it was, or `wait` has returned its pid |
| `ProcessLife.ForkStartsChild` | kernel/proc.c:354-404 | `fork` makes one process runnable: a new one, under a new pid, with the caller as its parent |
| `ProcessLife.ZombiesAreChildless` | kernel/proc.c:406-464 | an exited process has no children, in any state of any run |
| `ProcessLife.PidsAreCounted` | kernel/proc.c:187-198 | pids are handed out in order from 2, one for each `fork`, also one that fails |
| `ProcessLife.ChansAreExact` | kernel/proc.c:654-664 | `p->chan` is set exactly from going to sleep until running again |
| `ProcessWork.CallsAreBounded` | kernel/proc.c:354-716 | however the processes interleave, each step of a process brings its call nearer to its return, its next sleep or its exit |
| `ProcessWork.CallLength` | kernel/proc.c:354-716 | with n process slots that takes at most 2n + 7 steps, and for `exit` n * n + 3n + 5 |
| `Pipes.TestsAreExact` | kernel/pipe.c:88-117 | the tests on the wrapping 32-bit counters tell full and empty exactly |
| `Pipes.WriteLoopStores` | kernel/pipe.c:83-99 | a writer stores its bytes in order, and sleeps, aborts or finishes only for the reason the code tests |
| `Pipes.AbortsPartWay` | kernel/pipe.c:84-87 | exactly when a writer that has stored bytes leaves with -1 |
| `Pipes.ReadLoopTakes` | kernel/pipe.c:119-130 | a reader takes the oldest bytes, as many as are asked for, buffered and can be copied out |
| `Pipes.Pipe.constructor` | kernel/pipe.c:22-56 | an empty pipe with both ends open |
| `Pipes.Pipe.WriteSpan` | kernel/pipe.c:76-103 | the loop over the ring does what the specification of a writer's stretch says |
| `Pipes.Pipe.ReadSpan` | kernel/pipe.c:105-134 | the loop over the ring does what the specification of a reader's stretch says |
| `Pipes.PipeStream` | kernel/pipe.c:76-134 | in every run, bytes delivered followed by bytes buffered are the bytes stored, and neither stream is ever revised |
| `Pipes.CallsAgreeWithStream` | kernel/pipe.c:76-134 | each read got a contiguous piece of the stream and each write's bytes are in it in order; a count returned is how many those are; `PipeCalls.CallsReturn` says when it is returned |
| `Pipes.ReadLosesNothing` | kernel/pipe.c:105-134 | one stretch of `piperead` in all its cases: how many bytes it takes, that all others stay buffered in order, and when it returns -1 |
| `PipeCalls.WriteStoresAll` | kernel/pipe.c:76-103 | one stretch of `pipewrite` in all its cases: how many bytes it stores, from the free space, the length, the source, the read end and the kill; it returns -1 exactly if bytes are left and the read end is closed or the process killed there, otherwise the whole count, or it sleeps on a full pipe |
| `PipeCalls.CallsReturn` | kernel/pipe.c:76-134 | in every run and from the arguments of the call: a write returns the whole count or -1, and -1 only with bytes left and the read end closed or the process killed; a read returns how many bytes it got, no more than asked for, 0 only if the write end is closed, -1 only if it is killed or its first byte cannot be copied out |
| `PipeCalls.EndsAreExact` | kernel/pipe.c:58-74 | an end is open until `pipeclose` closes it, and stays closed |
| `PipeCalls.EndOfFile` | kernel/pipe.c:105-134 | once the write end is closed a read does not block, and returns 0 exactly if nothing is buffered or asked for |
| `PipeCalls.BrokenPipe` | kernel/pipe.c:84-87 | once the read end is closed a write with bytes left stores none of them and returns -1 |
| `PipeCalls.WokenExactly` | kernel/pipe.c:58-134 | what wakes a sleeping reader or writer: `kill`, closing the other end, or a call of the other kind that got through; nothing else, and these always do |
| `Pipes.SleepingWriterIsBlocked` | kernel/pipe.c:88-91 | with the lock free, a writer asleep means a full pipe whose read end is open |
| `Pipes.ReadersBlockedExactly` | kernel/pipe.c:84-87 | the same for readers holds in a run if and only if no writer leaves silently in it |
| `Pipes.ReaderLeftAsleep` | kernel/pipe.c:84-87 | a run in which a reader stays asleep on a pipe with a byte in it |
| `Virtio.Alloc3Exactly` | kernel/virtio_disk.c:200-213 | three different free descriptors, or failure exactly when fewer than three are free |
| `Virtio.ChainFreedExactly` | kernel/virtio_disk.c:184-197 | freeing a chain frees its three descriptors and does not panic |
| `Virtio.Driver.AllocDesc` | kernel/virtio_disk.c:155-166 | takes the first free descriptor, or fails exactly when there is none |
| `Virtio.Driver.FreeDesc` | kernel/virtio_disk.c:168-182 | frees and clears that descriptor only; panics exactly for one out of range or already free |
| `Virtio.Driver.FreeChain` | kernel/virtio_disk.c:184-197 | follows the links and frees what the specification says |
| `Virtio.Driver.Alloc3Desc` | kernel/virtio_disk.c:200-213 | all three or nothing changed |
| `Virtio.Driver.Submit` | kernel/virtio_disk.c:235-277 | formats the three descriptors as one chain, sets `b->disk`, and makes the chain available at the wrapped index |
| `Virtio.Driver.Post` | kernel/virtio_disk.c:215-277 | posts the request as a step of the protocol does, or changes nothing, exactly when fewer than three descriptors are free |
| `Virtio.NeverPanics` | kernel/virtio_disk.c:156-327 | in every run against a device that completes each chain once, in any order, no panic is reached, no ring is overrun across 16-bit wrap, and every chain the device holds is well formed |
| `Virtio.DescriptorsConserved` | kernel/virtio_disk.c:156-213 | every descriptor is free or in the three-descriptor chain of exactly one process |
| `Virtio.InterruptClearsOwnBuffer` | kernel/virtio_disk.c:294-327 | an interrupt clears the busy flag of just the buffer whose chain was completed |
| `Virtio.SleepersAreBlocked` | kernel/virtio_disk.c:227-289 | asleep on a buffer only while its request is out; asleep for descriptors only while fewer than three are free |
| `Virtio.ServedExactlyOnce` | kernel/virtio_disk.c:215-292 | a call that has returned was served by exactly one transfer, of the sector, buffer and direction of its request, and a write moved what the buffer held when it was posted; `VirtioCalls.CallIsServed` starts from the arguments of the call |
| `Virtio.ReadIsInBuffer` | kernel/virtio_disk.c:281-291 | a read that returns has in its buffer what its transfer moved |
| `Virtio.DiskIsReplay` | kernel/virtio_disk.c:215-327 | the disk is the transfers replayed in order, and each read moved what was there |
| `VirtioCalls.CallsAreAsked` | kernel/virtio_disk.c:215-277 | in every run, the request of a process is for the buffer, block and direction of its latest call, with what the buffer held when the call was made |
| `VirtioCalls.CallIsServed` | kernel/virtio_disk.c:215-292 | from the arguments of a call to its return: exactly one transfer was made for it, during the call, between its buffer and the sectors of its block, in its direction; a write moved what the buffer held when the call was made, a read left in the buffer what the disk held after the transfers before it |
| `VirtioCalls.WokenExactly` | kernel/virtio_disk.c:168-327 | what wakes a process waiting for its request or for descriptors: `kill`, the interrupt for that request, descriptors given back; nothing else, and these always do |
| `VirtioCalls.TurnsEnd` | kernel/virtio_disk.c:223-291 | a call posts exactly if three descriptors are free, and else waits for them; it returns exactly if the interrupt handler has seen its request, and else waits for that |
| `VirtioCalls.BuffersHold` | kernel/virtio_disk.c:215-292 | in every run, a buffer holds what was last put into it, by the kernel or by a read |
| `PageBits.EntryRoundTrip` | kernel/riscv.h:365-369 | a page-aligned address and flags packed in an entry both come back |
| `PageBits.Reassemble` | kernel/riscv.h:371-374 | an address below `MAXVA` is its three indices and its offset |
| `PageBits.IndicesAreInjective` | kernel/riscv.h:371-380 | so the indices and the offset determine it |
| `PageBits.IndicesAgree` | kernel/riscv.h:371-380 | the indices taken from the bits are those of the page number that the page-table model uses |
| `VmModel.TranslationIsFlat` | kernel/vm.c:97-115 | walking the three levels translates each virtual page exactly as the flat map of the address space says |
| `VmModel.OneUse` | kernel/kalloc.c:33-82 | every page is free, a table of one level of one address space, the memory of one virtual page, or held by the kernel or one trapframe, and only one of these; the page mapped at `TRAPFRAME` is the trapframe of that process |
| `VmModel.TopIsOwn` | kernel/proc.c:269-301 | each process's tables translate `TRAMPOLINE` to the trampoline and `TRAPFRAME` to its own trapframe, which no other process has |
| `VmModel.PagesDistinct` | kernel/vm.c:296-324 | no physical page backs two virtual pages that own their memory |
| `VmModel.MemoryKept` | kernel/vm.c:145-240 | an operation on one range of one address space leaves all other memory mapped, with its contents |
| `Vm.Machine.constructor` | kernel/kalloc.c:26-40 | every page of the range is free |
| `Vm.Machine.Freerange` | kernel/kalloc.c:33-40 | puts each page of the range on the free list once |
| `Vm.Machine.Kalloc` | kernel/kalloc.c:65-82 | the first free page, or none exactly when the list is empty |
| `Vm.Machine.Kfree` | kernel/kalloc.c:42-63 | a held page goes to the front of the list; no other page changes |
| `Vm.Machine.Walk` | kernel/vm.c:86-115 | the lowest table for the page; allocating, it succeeds exactly when there are free pages for the tables that are missing, and takes just those; otherwise it fails exactly when there is no table; no mapping changes |
| `Vm.Machine.Mappages` | kernel/vm.c:140-174 | maps exactly the pages up to where it stopped, and all of them exactly when there are free pages for the tables that are missing |
| `Vm.Machine.Uvmunmap` | kernel/vm.c:189-212 | exactly the named pages are unmapped and, if owned, freed; unmapped ones are skipped |
| `Vm.Machine.Uvmcreate` | kernel/vm.c:176-187 | a new empty address space, or everything as before, exactly when no page is free |
| `Vm.Machine.Uvmalloc` | kernel/vm.c:214-240 | zeroed pages up to the new size, exactly when there are free pages for these and for the missing tables on the way to them; else 0 and none of them left mapped |
| `Vm.Machine.Uvmdealloc` | kernel/vm.c:242-258 | exactly the pages above the new size go |
| `Vm.Machine.Freewalk` | kernel/vm.c:260-278 | frees exactly the tables of the subtree; "freewalk: leaf" is not reached |
| `Vm.Machine.Uvmfree` | kernel/vm.c:280-288 | every page of the address space is free again, and no other page changes |
| `Vm.Machine.Uvmcopy` | kernel/vm.c:290-324 | equal contents and permissions on pages of its own for every page the parent has, exactly when there are free pages for these and the missing tables; else nothing left mapped |
| `Vm.Machine.Vmfault` | kernel/vm.c:448-473 | backs an unmapped page below the size with a zeroed page, exactly when there are free pages for it and the missing tables; else no mapping changes, though tables it had added stay |
| `Vm.Machine.ProcPagetable` | kernel/proc.c:269-301 | trampoline and trapframe mapped and nothing else, exactly when three pages are free; else every page as before |
| `Vm.Machine.ProcFreepagetable` | kernel/proc.c:303-311 | everything the address space had is free |
| `Vm.Machine.Grow` | kernel/proc.c:330-350 | `growproc` upwards: zeroed pages and the new size, exactly when that is below the trapframe and there are free pages enough; else the old size and nothing mapped above it |
| `Vm.Machine.Shrink` | kernel/proc.c:330-350 | `growproc` downwards: exactly the pages above the new size go; below zero nothing changes |
| `Vm.Machine.Sbrk` | kernel/sysproc.c:39-65 | the new size for every `int` argument, eager or lazy, and exactly when it fails; user pages stay below the size |
| `Vm.Machine.Fault` | kernel/vm.c:448-473 | a fault of a process keeps all pages accounted for and gives it that one page, exactly when it is below the size, unmapped and affordable |
| `Vm.Machine.Allocproc` | kernel/proc.c:200-245 | a trapframe and an address space, exactly when four pages are free; else every page as before |
| `Vm.Machine.Freeproc` | kernel/proc.c:247-267 | exactly the process's pages and its trapframe become free |
| `Vm.Machine.Fork` | kernel/proc.c:352-404 | the child's memory is a copy on pages of its own and the parent's is as it was, exactly when there are free pages for a trapframe, a root, two tables, a copy of each page of the parent and the further tables on the way to these; else every page is as before |
| `Vm.Machine.KernelAlloc` | kernel/kalloc.c:65-82 | a page for the kernel is one that was free, and no other page changes; none only if no page is free |
| `Vm.Machine.KernelFree` | kernel/kalloc.c:42-63 | such a page is free again, and no other page changes |
| `Umalloc.FreedKeeps` | user/umalloc.c:24-44 | freeing keeps address order with one wrap, no touching free blocks, and the same units tiled by blocks |
| `Umalloc.GivenExactly` | user/umalloc.c:46-61 | the memory `morecore` takes itself to have got is what `sbrk` gave, if and only if the request is below 2^31 bytes |
| `Umalloc.SoundExactly` | user/umalloc.c:46-61 | the same condition, exactly, for the break to stay above all of it |
| `Umalloc.FitsExactly` | user/umalloc.c:63-90 | the condition in the caller's terms: `nbytes` at most 0x7fffffe0, for every `uint`, also where the number of units times 16 passes 2^32 |
| `Umalloc.Allocator.constructor` | user/umalloc.c:19-22 | an allocator that has not been called |
| `Umalloc.Allocator.Find` | user/umalloc.c:30-32 | the traversal ends, at the one place where the block belongs |
| `Umalloc.Allocator.Free` | user/umalloc.c:24-44 | only that block goes out of use; the list invariants hold |
| `Umalloc.Allocator.Sbrk` | kernel/sysproc.c:39-65 | what the system call does to the break, as `Vm.Machine.Sbrk` has it |
| `Umalloc.Allocator.Morecore` | user/umalloc.c:46-61 | the new block is merged where it belongs and leaves room for the request, blocks in use stay, and what `sbrk` was really asked for |
| `Umalloc.Allocator.Malloc` | user/umalloc.c:63-90 | terminates; a block of the right number of units that nobody had, with all others kept; 0 exactly when there is no room and `sbrk` refuses; the blocks still tile the memory from `sbrk` if and only if no memory was needed or the request fits an `int` |
| `Umalloc.HugeRequest` | user/umalloc.c:46-90 | two calls after which `malloc` has returned memory it was never given |
| `Grep.HereMeans` | user/grep.c:84-96 | `matchhere` decides whether the text begins as the pattern says |
| `Grep.StarMeans` | user/grep.c:98-106 | `matchstar` decides whether it begins with any number of the character and then as the pattern says |
| `Grep.Matchhere` | user/grep.c:84-96 | terminates and computes that |
| `Grep.Matchstar` | user/grep.c:98-106 | the do-while loop computes that |
| `Grep.Match` | user/grep.c:72-82 | 1 exactly when the declarative meaning of `^`, `.`, `*` and `$` holds for some place in the text |
| `Shell.GetToken` | user/sh.c:271-314 | where a token lies, that it is empty only at the end of the line, and that a word has no symbol or white space in it |
| `Shell.Gettoken` | user/sh.c:271-314 | the scanning loops find that token |
| `Shell.PeekAt` | user/sh.c:316-326 | the loop skips white space and looks at one character, moving `*ps` past the white space |
| `Shell.Parseredirs` | user/sh.c:380-403 | the loop reads the redirections the specification says |
| `Shell.Parseexec` | user/sh.c:421-452 | the loop over the arguments terminates and does what the specification says, its error cases included; `ShellGrammar.ParsesExactly` says what that comes to |
| `Shell.Parseblock` | user/sh.c:405-419 | as the specification says |
| `Shell.Parsepipe` | user/sh.c:367-378 | as the specification says |
| `Shell.Parseline` | user/sh.c:350-365 | as the specification says; the whole descent terminates |
| `Shell.Nulterminate` | user/sh.c:454-499 | the buffer gets NULs at the ends of the tree's tokens and nowhere else |
| `Shell.TokensReadBack` | user/sh.c:333-348 | after that each argument and file name of any parsed line reads back as exactly its token |
| `Shell.Parsecmd` | user/sh.c:333-348 | the same of the buffer in memory; a line that does not parse is left as it was |
| `ShellGrammar.ParsesExactly` | user/sh.c:333-452 | the parser accepts exactly the lines of a grammar on tokens in which every command has fewer than `MAXARGS` arguments, and returns what the grammar says they mean: every argument, redirection, pipe, list and `&`, in order, and no line means two things |
| `ShellGrammar.NoWordIsLost` | user/sh.c:333-452 | every whole word of a line that parses is an argument or a file name of its command |
| `ShellPrint.LayoutDoesNotMatter` | user/sh.c:271-326 | white space between tokens changes neither whether a line parses nor what it means |
| `ShellPrint.PrintLineReads` | user/sh.c:333-452 | every line of the grammar, printed, with redirections before, between and after the words, `&` before `;`, and pipes and lists with or without parentheses, is read back as what it means if and only if no command has `MAXARGS` arguments or more |
| `ShellPrint.ParseInvertsPrint` | user/sh.c:333-452 | every writable command tree has a line that is read back as that tree, under the same condition |

## Findings

What the proofs turned up in the code. Each is a proved statement, with the exact condition where a promise does
not hold on all inputs.

- `malloc` of more than 0x7fffffe0 bytes (`user/umalloc.c:54`): `morecore` passes `nu * sizeof(Header)` to `sbrk`,
  whose argument is an `int`. From 2^31 bytes on the argument is negative, so `sbrk` shrinks the break or leaves it,
  reports success, and `malloc` returns memory the program was not given. `Umalloc.HugeRequest` is such a run.
  From 0xffffffe1 bytes on the product reaches 2^32 and `sbrk` is asked for 0 or 16 bytes, with the same result.
  `Umalloc.Allocator.Malloc` and `Umalloc.FitsExactly` give the exact condition, for every `nbytes`.
- A lost wakeup (`kernel/pipe.c:84-87`): a writer killed after storing some bytes returns -1 without waking readers,
  so a reader can stay asleep on a pipe with bytes in it. `Pipes.ReaderLeftAsleep` is such a run;
  `Pipes.AbortsPartWay` says exactly when a writer leaves this way, and `Pipes.ReadersBlockedExactly` that these are
  the only runs in which it happens.
- `log_write` panics on a full log even when the block is already in it and would take no slot
  (`kernel/log.c:221-222` comes before the search). `GroupCommit.LogWritePanicsExactly` has the condition: exactly
  when the log is full; an operation with unspent budget is safe. `FullLog.AbsorbedPanics` is a run that gets there,
  with any sizes like those of the source, where the log holds three whole budgets.
- A commit can fail to get a buffer for its first log block. `RedoLog.Log.Commit` panics exactly when something is
  logged and the logged blocks and those that other processes hold are as many as the buffers, or more; `RoomExactly`
  is that condition at the `bread`. As `NBUF` equals `LOGBLOCKS` (`kernel/param.h:10-11`), a transaction that fills
  the log is enough, and nothing in `begin_op` prevents it.
- `matchhere` and `matchstar`, `parseblock`, `nulterminate` and both traversals of the free list terminate on every
  input; none needed a bound of its own.

## Left out

- Assembly, trap entry, CSR access, the scheduler's context switch, spinlock internals and fences: taking and
  releasing a lock is atomic mutual exclusion, and scheduling is a choice of who steps next.
- UART, PLIC, console and `printf`.
- `virtio_disk_init` and device errors: the driver starts initialised, and the status byte of a completed request is
  0, which the code turns into a panic otherwise.
- `kexec` and ELF loading, `uvmclear`, the argument fetching of `kernel/syscall.c`.
- `copyin`, `copyout` and `copyinstr` themselves: whether and how far they succeed is a parameter. A copy that
  fails half-way in `writei` (`kernel/fs.c:545-547`) is not modelled.
- Directories, path names, link counts, the inode table (`iget`, `iput`, `ialloc`) and the open file table.
- The kernel's own page table (`kvmmake`, `kvmmap`).
- Running a shell command (`runcmd`) and `grep`'s loop over its input lines.
- Negative lengths of `filewrite`, which return -1 at once: the bytes to write are a sequence.
- Pids do not overflow, and `kkill` is for pids above 0.
- That a killed process exits: `kqueue_wait_internal` does not look for it, so it does not hold in general.
- RedoLog.Log.Commit: other processes may hold buffers of any blocks outside the log and the transaction, but they
  do not take steps of their own meanwhile, because the class runs one call at a time; their steps interleaved with
  a commit's are in `BufferCache.CacheIsPlainDisk`, for buffers, and in `GroupCommit`, for blocks.
- RedoLog.Log.EndOp: calls commit itself, without the moment in which `log.lock` is free and `committing` is set;
  `GroupCommit` has that moment as states of its own.
- RedoLog.Log.BeginOp: one turn of its loop, where false means that it sleeps and tries again; the turns together are
  `GroupCommit`'s.
- BufferCache.Cache.Brelse: asks its caller to have written or logged what it changed, which the code leaves to its
  callers; without that a buffer would differ from the disk.
- BufferCache.Cache.Bget: waiting in `acquiresleep` is the end of the call; that the lock is then taken is the step
  `Lock` of `BufferCache.CacheIsPlainDisk`.
- FileSystem.Disk.constructor: makes the initial file system itself; reading one from an image (`kernel/fs.c:29-48`)
  is not modelled.
- FileSystem.Disk.Iupdate: an inode is its size and its addresses; type, major, minor and link count are left out.
- Umalloc.Allocator.Malloc: always returns. When `sbrk` gave nothing, the header it writes at the break
  (`user/umalloc.c:58`) may be on a page that is not mapped, and then the process is killed instead.
- Umalloc.Allocator.Sbrk: takes multiples of 16, as `morecore` passes them.
- Umalloc.Allocator.Elsewhere: the break moves by whole headers, so memory the program takes by `sbrk` itself comes
  in multiples of 16 bytes.
- Umalloc.Allocator.Free: frees blocks in use only, as the caller owes.
- Virtio.Driver.Submit: memory fences are left out; each of its stores is seen in program order.
- KQueue.Queue.KqueueTake: one look at the queue; sleeping and looking again are steps of `Processes`.
- Vm.Machine.Uvmunmap: frees pages exactly where the address space owns them, as all callers do.
