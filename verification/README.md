# A verified model of an xv6 kernel with an MLFQ scheduler, and of its shells

This project models the parts of the repository that are hardest to get right
and proves what they promise, for every input, every run or every reachable
state:

* the redo log over the buffer cache (`log.c`, `bio.c`): crash atomicity, cache
  coherence in every interleaving of processes that hold any number of buffers,
  and the reservation protocol of concurrent operations;
* page tables and the page allocator (`vm.c`, `kalloc.c`): the radix tree as a
  flat page map, rollback, and conservation of pages. The entry format is Sv39,
  section 4.4 of the RISC-V Privileged Architecture, version 20211203;
* the MLFQ scheduler and sleep/wakeup (`proc.c`, `sleeplock.c`): four FIFO
  queues out of stamps, a dispatch bound, no lost wakeup, no missed zombie;
* inodes and file I/O (`fs.c`, `file.c`): block ownership, files as byte
  sequences, the log budget of a write, and, joined with the log, what a crash
  leaves of a file that is being written;
* the user allocator (`umalloc.c`), the pipe (`pipe.c`), the two shells' parsers
  (`sh.c`, `lexer.c`) and the backward reader of `peek.c`.

Code that works in place is a class or a method on an array, proved against
functions on values; protocols are state machines whose steps are the sections
under a lock. Each core has one or more files of lemmas about values, and the
class or state machine that uses them. Beside each function that mirrors the code
stands a law that does not mention it: queues that count their own ticks, raw
addresses on disk, positions in a command line, the hardware's translation, and
runs that reach a wait and get out of it.

| area | files |
|---|---|
| log and cache | `Blocks`, `Ring`, `Bio`, `Redo`, `Log`, `BlockStore`, `History`, `Sharing`, `Kernel`, `Drive`, `LogProtocol` |
| memory | `Sv39`, `PageTable`, `Translate`, `Vm`, `VmAlloc`, `VmFree`, `FreeList`, `Umalloc` |
| processes | `Mlfq`, `MlfqQueues`, `MlfqFifo`, `MlfqBound`, `MlfqCode`, `SleepLock`, `WaitExit`, `WaitRuns` |
| files | `Bitmap`, `Inodes`, `Truncate`, `FileBytes`, `LogBudget`, `Fs`, `File`, `OnDisk`, `DurableFile`, `Pipe` |
| shells | `ShLex`, `ShGrammar`, `ShOrder`, `ShParse`, `Lexer`, `Peek` |

## What the proofs found

* `NBUF` equals `LOGBLOCKS` (both 30), and readers hold buffers outside any
  operation. A commit of a non-empty log dies in bget exactly when the logged
  blocks and the buffers that processes hold beside them are all 30 buffers:
  `LogLayer.Log.Commit`, with `LogLayer.FreeIffNotFull` for the count.
  `BlockStore.FullCachePanics` runs into it for every split, 30 logged blocks and
  no reader or 29 logged blocks and one block held by a reader among them.
* `log_write` tests for a full log before it looks for absorption, so an
  operation that has used its budget panics on a full log even when it rewrites
  a block it has logged already: `LogProtocol.RewriteOfLoggedBlockPanics`, and
  `LogProtocol.PanicsExactlyWhenFull` for the exact condition.
* A boost restamps in table order and the ticking process is charged at once,
  which drops it to queue 1. Timer interrupts that charge no one (an idle
  scheduler, or a process about to exit because it was killed) count against the
  boost interval. With r others ahead just after a boost, a process is sure to be
  picked before the next one exactly when r is 0 or r plus the number of such
  interrupts stays below 48 (`MlfqBound.PickedBeforeBoostIff`);
  `MlfqBound.BoostComesFirst` gives the failing run for every other pair, and
  `MlfqBound.Crowd` reaches the states it starts from.
* `morecore` passes its byte count to `sbrk` as an `int`;
  `Umalloc.SbrkArgumentExact` gives the largest request for which that is exact.
* `peek -r` of a file that holds one newline prints nothing, while the same
  contents from standard input print a newline: `Peek.LoneNewlineDiffers`.

## Model

| member | source | states |
|---|---|---|
| Ring.RelinkMovesToFront | xv6/kernel/bio.c:128-133 | brelse's six pointer writes turn the links of a ring into the links of the same ring with that buffer moved to the front |
| Ring.MoveKeepsPermutation | xv6/kernel/bio.c:126-134 | moving a buffer to the front leaves the ring a permutation of all buffers |
| Bio.UnreferencedIsClean | xv6/kernel/bio.c:76-86 | a valid buffer with refcnt 0 equals its disk block, so recycling it loses nothing |
| Bio.InvalidMeansOnDisk | xv6/kernel/bio.c:96-101 | a block with no valid buffer has its latest contents on disk |
| Bio.RecycleCoherent | xv6/kernel/bio.c:76-86 | giving an unreferenced buffer to an uncached block keeps the cache coherent, with one buffer per block of a real device |
| Bio.ModifyCoherent | xv6/kernel/bio.c:10-13 | new data in a locked valid buffer becomes the latest contents of its block and the cache stays coherent |
| Bio.WriteCoherent | xv6/kernel/bio.c:106-112 | writing a valid buffer to disk keeps the cache coherent |
| Bio.ReleaseKeepsOrder | xv6/kernel/bio.c:126-134 | moving the last released buffer to the front keeps the ring sorted by time of release |
| Bio.Bcache.constructor | xv6/kernel/bio.c:35-52 | binit links all buffers into one ring, coherent with any disk contents |
| Bio.Bcache.FindCached | xv6/kernel/bio.c:64-72 | the forward walk finds the block's buffer exactly when there is one |
| Bio.Bcache.FindVictim | xv6/kernel/bio.c:74-87 | the backward walk finds the unreferenced buffer released longest ago, and none exactly when all are referenced |
| Bio.Bcache.Bget | xv6/kernel/bio.c:57-88 | a cached block keeps its buffer and contents; otherwise the least recently released unreferenced buffer is taken; the panic happens exactly when the block is uncached and every buffer is referenced |
| Bio.Bcache.Bread | xv6/kernel/bio.c:90-102 | the buffer returned is locked and holds the latest contents of the block |
| Bio.Bcache.Bwrite | xv6/kernel/bio.c:104-112 | one block of the disk changes, to the buffer's data, in one step of the write history |
| Bio.Bcache.DropRef | xv6/kernel/bio.c:124-134 | the last reference makes the buffer the most recently released one; an earlier one leaves the order alone |
| Bio.Bcache.Brelse | xv6/kernel/bio.c:116-137 | the lock and one reference go and the cache stays coherent, provided unwritten contents are pinned |
| Bio.Bcache.Bpin | xv6/kernel/bio.c:139-145 | one more pin, coherence kept |
| Bio.Bcache.Bunpin | xv6/kernel/bio.c:147-153 | one pin fewer, coherence kept, for a buffer that is locked or already on disk |
| Redo.HeadRoundTrip | xv6/kernel/log.c:87-116 | the header written for a list of blocks reads back as that list |
| Redo.ReinstallAfterPartial | xv6/kernel/log.c:67-85 | a disk on which recovery stopped after any number of installs recovers to the same disk |
| Redo.ClearedRecoversToItself | xv6/kernel/log.c:118-125 | recovering a recovered disk changes nothing |
| Redo.RecoveryStepKeepsOutcome | xv6/kernel/log.c:118-125 | every disk that an interrupted or completed recovery leaves behind has the same outcome |
| Redo.RepeatedCrashes | xv6/kernel/log.c:118-125 | after any number of crashes during recovery, the recovery that completes gives the disk the first one would have |
| Redo.CommitIsAtomic | xv6/kernel/log.c:187-212 | after each of the 2n+2 block writes of a commit a crash recovers home blocks all old or all new, and all new exactly when the header was written |
| Redo.AfterCommitPoint | xv6/kernel/log.c:202-212 | every disk from the header write to the end of the commit recovers like the disk at the header write |
| Redo.CommitPointRecovers | xv6/kernel/log.c:206-207 | the disk at the header write recovers to the cached contents of the logged blocks and the old contents of the others |
| Redo.RecoveryTraceReaches | xv6/kernel/log.c:118-125 | each disk that recover_from_log writes is one an interrupted recovery can leave |
| Redo.CommitKeepsSource | xv6/kernel/log.c:187-212 | logging and installing the cached contents leaves the cached contents of all home blocks as they were |
| LogLayer.FreeIffNotFull | xv6/kernel/bio.c:74-87 | with exactly the logged blocks pinned and any buffers held by any processes, bget can recycle a buffer exactly when logged blocks and held buffers beside them are fewer than NBUF |
| LogLayer.Log.WriteLog | xv6/kernel/log.c:187-200 | while others hold any buffers outside the log area, the log blocks receive the cached contents of the logged blocks, one disk write each; it fails, with nothing written, exactly when blocks are logged and no buffer is free; what others hold stays theirs |
| LogLayer.Log.WriteHead | xv6/kernel/log.c:104-116 | the header block encodes the list, in one disk write, and what others hold stays theirs |
| LogLayer.Log.InstallCommitted | xv6/kernel/log.c:67-85 | log blocks are copied home one write at a time and each pin is dropped, also for blocks that others hold |
| LogLayer.Log.InstallRecovering | xv6/kernel/log.c:67-85 | on a fresh cache the same copies happen, and no pin is touched |
| LogLayer.Log.Commit | xv6/kernel/log.c:202-212 | the disk writes are exactly those of the commit history, the log ends empty, home contents are unchanged for readers and what others hold stays theirs; it fails, with the disk untouched, exactly when blocks are logged and they and the buffers others hold beside them are all NBUF |
| LogLayer.Log.ReadHead | xv6/kernel/log.c:87-99 | the in-memory list becomes the one on disk |
| LogLayer.Log.RecoverFromLog | xv6/kernel/log.c:118-125 | the disk becomes the recovered disk, by the writes of the recovery history |
| LogLayer.Log.LogWrite | xv6/kernel/log.c:223-244 | for any locked valid buffer of a home block, whatever else anyone holds: the block is recorded and pinned once, or the call panics, too big exactly when the list is full, outside a transaction exactly when it is not full and none is open |
| LogLayer.Log.Store | xv6/kernel/log.c:214-222 | bread, modify, log_write and brelse change what readers see and nothing on disk, and leave other held buffers to their holders; the two panics happen exactly when the block is uncached with every buffer in use, and when the list is full |
| LogLayer.Log.Fetch | xv6/kernel/file.c:120-124 | bread and brelse return the latest contents and change neither disk nor contents nor what others hold; the panic happens exactly when the block is uncached and every buffer is in use |
| LogLayer.Log.BeginOp | xv6/kernel/log.c:128-150 | outside a commit an operation is admitted exactly when the list and MAXOPBLOCKS for each operation including it fit the log |
| LogLayer.Log.EndOp | xv6/kernel/log.c:154-172 | one operation fewer; the last one out is the one to commit |
| BlockStore.CommitSwitches | xv6/kernel/log.c:202-212 | the write history of a commit switches, at the header write, from disks that recover to the old contents to disks that recover to the new |
| BlockStore.RunTransaction | xv6/kernel/log.c:127-184 | one process's begin_op, writes and end_op with nothing else going on act on home blocks like the same writes on an array, and the disk switches from old to new at one write |
| BlockStore.Serve | xv6/kernel/log.c:14-22 | a script of reads and transactions, one after the other, answers as an array of blocks would, and every disk along the way recovers to the state after a prefix of the script |
| BlockStore.Boot | xv6/kernel/log.c:54-64 | a kernel booted on any disk with a readable log recovers it and is ready |
| BlockStore.CrashesRecoverToPrefix | xv6/kernel/log.c:118-125 | however many recoveries crash in between, the contents after them are those of a prefix of the script |
| BlockStore.FullCachePanics | xv6/kernel/log.c:187-212 | three operations admitted by begin_op log n > 0 blocks, readers hold 30 - n others, the operations end, and the commit fails with the disk untouched |
| Sharing.SlotStep | xv6/kernel/bio.c:57-153 | a section of one process on one buffer keeps reference counts equal to the references processes have, and each lock with the one process that took it |
| Sharing.OneHolder | xv6/kernel/sleeplock.c:21-34 | two processes, or two breads of one, never hold the same block's lock |
| Sharing.CanDrop | xv6/kernel/bio.c:124-134 | a reference given back after releasesleep is never the one a lock holder relies on |
| Sharing.CanRelease | xv6/kernel/bio.c:116-123 | what a holder that logged its changes releases is pinned or already on disk |
| History.PhaseRecovers | xv6/kernel/log.c:187-212 | at every point of a commit that runs among readers the disk recovers to the contents before it up to the header write, and to those it commits from then on |
| History.CrashesRecoverToCut | xv6/kernel/log.c:118-125 | crashed recoveries after a crash do not change which part of the history is recovered |
| KernelRun.Kernel.constructor | xv6/kernel/log.c:54-64 | after boot, any number of processes and buffers per process can start taking turns |
| KernelRun.Kernel.ReferenceTurn | xv6/kernel/bio.c:57-88 | bget by any process among any others; it panics exactly when the block is uncached and no buffer is free |
| KernelRun.Kernel.ReadTurn | xv6/kernel/bio.c:90-102 | the data a bread gives its process is what the history then records it as seeing, which the invariant ties to the last modification |
| KernelRun.Kernel.ChangeTurn | xv6/kernel/log.c:218-222 | a process inside an operation modifies a block it has locked, among any others |
| KernelRun.Kernel.RecordTurn | xv6/kernel/log.c:223-244 | log_write among any others; it panics exactly when the list is full |
| KernelRun.Kernel.ReleaseTurn | xv6/kernel/bio.c:116-123 | a process that logged what it modified can always release its buffer |
| KernelRun.Kernel.DropTurn | xv6/kernel/bio.c:124-136 | and give up its reference |
| KernelRun.Kernel.EndTurn | xv6/kernel/log.c:154-177 | the last operation to end becomes the committer of everything ended so far |
| KernelRun.Kernel.CopyToLogTurn | xv6/kernel/log.c:195-196 | the committer's copy of a cached block to its log block, among readers |
| KernelRun.Kernel.WriteHeadTurn | xv6/kernel/log.c:104-116 | the header write moves what a crash recovers to from the last commit to everything ended before this one |
| KernelRun.Kernel.InstallTurn | xv6/kernel/log.c:78-79 | the committer's copy of a log block home, among readers, changes nothing a reader sees |
| KernelRun.Kernel.UnpinTurn | xv6/kernel/log.c:80-81 | the pin goes once the block is home |
| KernelRun.Kernel.Take | xv6/kernel/bio.c:57-153 | every turn of every process is blocked exactly when its code waits or is elsewhere, and panics exactly in bget's and log_write's cases |
| KernelRun.Kernel.Run | xv6/kernel/log.c:14-22 | in every interleaving, up to a panic: the cache stays coherent, exactly the logged blocks not yet installed are pinned, every bread returned what the last modification before it wrote, every disk a crash could leave recovers to a prefix of the run with no operation half done and never to an earlier one than before, and with no operation or commit under way everything is durable |
| Drive.TakeBuffer | xv6/kernel/bio.c:57-102 | with room in the cache bget, acquiresleep and the read all go through |
| Drive.DriveCommit | xv6/kernel/log.c:104-212 | every turn of a commit goes through, in the code's order, from any reachable state with the log short of the cache by more than two |
| Drive.DriveOperation | xv6/kernel/log.c:127-244 | from every idle reachable state any accepted operation runs through begin_op, its writes, end_op and its commit turn by turn, and then a crash recovers to its writes applied to what was there |
| LogProtocol.BudgetMeansRoom | xv6/kernel/log.c:138-147 | an operation with budget left finds the log not full, not committing and itself counted |
| LogProtocol.StepInv | xv6/kernel/log.c:128-261 | every step of begin_op, log_write, end_op, commit and sync keeps: reserved space fits, one committer and then no operation, an idle log is empty and unwaited for, a process is registered in begin_op only while a commit is under way or the log has no room, no panic |
| LogProtocol.RunInv | xv6/kernel/log.c:128-261 | the same over every interleaving in which operations keep their budgets |
| LogProtocol.InitInv | xv6/kernel/log.c:54-64 | it holds at boot |
| LogProtocol.BeginEnds | xv6/kernel/log.c:128-150 | begin_op ends only by its own test, inside an operation, exactly when no commit is under way and n + (outstanding + 1) * 10 is at most 30; otherwise it registers |
| LogProtocol.EndOutcome | xv6/kernel/log.c:154-184 | the last operation to end commits, any other one leaves no one registered |
| LogProtocol.WaiterIsServed | xv6/kernel/log.c:128-184 | from every reachable state with one operation, its end and commit lead to a waiter of begin_op being admitted |
| LogProtocol.SyncEnds | xv6/kernel/log.c:246-261 | sys_sync ends only by its own test, exactly when its target commit has finished |
| LogProtocol.SyncIsServed | xv6/kernel/log.c:246-261 | and that end and commit lead to a waiter of sys_sync returning |
| LogProtocol.WaitIsReached | xv6/kernel/log.c:128-150 | both waits are reached from boot |
| LogProtocol.SyncIsDurable | xv6/kernel/log.c:246-261 | sys_sync returns only when every operation that ended before it is among those a finished commit took when it started |
| LogProtocol.PanicsExactlyWhenFull | xv6/kernel/log.c:229-232 | log_write panics exactly when the list is full, and then the caller has used its budget |
| LogProtocol.RewriteOfLoggedBlockPanics | xv6/kernel/log.c:229-243 | a run in which rewriting an already logged block panics |
| FreeList.CanonicalForm | xv6/user/umalloc.c:24-44 | two ordered lists of blocks, no two adjacent, that cover the same units are the same list |
| FreeList.CoalesceApart | xv6/user/umalloc.c:33-42 | inserting a block with coalescing keeps the list ordered with a gap between any two blocks |
| FreeList.CoalesceCovers | xv6/user/umalloc.c:33-42 | the list then covers exactly what it covered before and the block |
| FreeList.CarveCovers | xv6/user/umalloc.c:76-82 | taking units from the end of a block removes exactly those units |
| Umalloc.StopsExactlyAtGap | xv6/user/umalloc.c:30-32 | free's loop test is true at exactly one node, the one the block belongs after |
| Umalloc.RelinkFreed | xv6/user/umalloc.c:33-42 | free's pointer and size writes thread the coalesced list, and its two comparisons decide adjacency |
| Umalloc.TakeKeepsHeap | xv6/user/umalloc.c:75-85 | both ways malloc takes a block keep one ordered cycle, disjoint blocks, intact headers and the total |
| Umalloc.TriedAll | xv6/user/umalloc.c:74-88 | a full turn of the search without success means that no free block is large enough |
| Umalloc.SbrkArgumentExact | xv6/user/umalloc.c:52-54 | sbrk is asked for the number of bytes meant exactly when the request is at most 0x7fffffe0 |
| Umalloc.UnitsHoldRequest | xv6/user/umalloc.c:69 | the unit count is the least that holds the request and a header |
| Umalloc.Heap.constructor | xv6/user/umalloc.c:21-22 | an unused heap |
| Umalloc.Heap.FindGap | xv6/user/umalloc.c:30-32 | the search ends at the one node the block belongs after |
| Umalloc.Heap.Insert | xv6/user/umalloc.c:24-44 | the block joins the free list coalesced on both sides, live blocks untouched |
| Umalloc.Heap.Free | xv6/user/umalloc.c:24-44 | the block leaves the live ones and exactly its units join the free list; the heap stays one ordered cycle, disjoint and conserved |
| Umalloc.Heap.Morecore | xv6/user/umalloc.c:46-61 | fresh memory of at least 4096 units joins the free list, or nothing changes |
| Umalloc.Heap.Take | xv6/user/umalloc.c:75-85 | a block of exactly the units asked for becomes live |
| Umalloc.Heap.Search | xv6/user/umalloc.c:74-88 | one turn of the list finds a large enough block if there is one, and ends |
| Umalloc.Heap.Malloc | xv6/user/umalloc.c:63-90 | a live block of the right size that overlaps nothing, or 0 only if sbrk refused; ends for every heap |
| Sv39.MakePteRoundTrip | xv6/kernel/riscv.h:400-407 | an entry built from an address and permissions gives both back, and is valid |
| Sv39.PxInjective | xv6/kernel/riscv.h:408-417 | the three indices of an address identify its page |
| Sv39.PxInverse | xv6/kernel/riscv.h:408-417 | every triple of indices is some page's, below MAXVA |
| PageTable.PathOwner | xv6/kernel/vm.c:98-116 | a walk meets only tables of the root it started from, each at its own level |
| PageTable.SamePath | xv6/kernel/vm.c:98-116 | two pages that reach the same bottom table and entry are the same page of the same root |
| PageTable.AddTable | xv6/kernel/vm.c:108-113 | hanging a blank table under an empty entry keeps every table unshared |
| PageTable.AddTableSameXlate | xv6/kernel/vm.c:108-113 | and changes no translation |
| PageTable.MapLeaf | xv6/kernel/vm.c:165-170 | writing an empty bottom entry keeps the trees sound and gives the page to that entry |
| PageTable.UnmapLeaf | xv6/kernel/vm.c:203-212 | clearing one keeps them sound and takes the page back |
| PageTable.SetLeafXlate | xv6/kernel/vm.c:165-170 | a bottom entry decides the translation of one page of one root and of no other |
| Translate.HardwareAgrees | xv6/kernel/vm.c:98-116 | the translation algorithm of the RISC-V Privileged Architecture, section 4.3.2 with Sv39's sizes, run on these tables gives for every address below MAXVA the flat map's page plus the offset, or a fault exactly if that map has no accessible page there |
| Vm.Memory.constructor | xv6/kernel/kalloc.c:26-31 | at boot every page handed over is waiting to be freed |
| Vm.Memory.Freerange | xv6/kernel/kalloc.c:33-40 | every whole page between the two addresses, the first rounded up, ends on the free list |
| Vm.Memory.Kfree | xv6/kernel/kalloc.c:46-63 | the page heads the free list, which holds exactly the free pages, once each |
| Vm.Memory.Kalloc | xv6/kernel/kalloc.c:68-82 | a free page leaves the list, or 0 exactly when it is empty; no translation changes |
| Vm.Memory.WalkStep | xv6/kernel/vm.c:104-114 | one level down, making a table if asked; it fails exactly when there is none and none can be made, and changes no translation |
| Vm.Memory.Walk | xv6/kernel/vm.c:98-116 | the bottom entry of the address; without alloc nothing changes, with it only free pages become tables and no translation changes, and two free pages are enough for it to succeed |
| Vm.Memory.MapOne | xv6/kernel/vm.c:162-173 | one page gains its translation, or the call reports a remap exactly when it had one |
| Vm.Memory.Mappages | xv6/kernel/vm.c:146-175 | on success exactly the pages of the range gain their physical addresses and permissions, on failure a prefix of them, and every other translation is as before; two free pages for each page of the range rule out running out of memory |
| Vm.Memory.UnmapOne | xv6/kernel/vm.c:200-212 | one page loses its translation, and its frame with do_free |
| Vm.Memory.Uvmunmap | xv6/kernel/vm.c:193-213 | exactly the range loses its translations and exactly its frames are freed |
| VmAlloc.AddPage | xv6/kernel/vm.c:225-240 | a page with given contents and flags is added, always when three pages are free; otherwise the frame is given back and nothing but tables has been added |
| VmAlloc.Uvmdealloc | xv6/kernel/vm.c:248-260 | the pages between the two sizes are unmapped and freed |
| VmAlloc.Uvmalloc | xv6/kernel/vm.c:217-242 | on success exactly the new pages are added, zeroed and with the right flags; on failure every user mapping made is undone; for a size above 0 the result is 0 exactly on failure; three free pages for each new page are enough to succeed |
| VmAlloc.Uvmcopy | xv6/kernel/vm.c:298-326 | on success the child gains a copy of every mapped page below sz, on failure nothing but tables; three free pages for each page below sz are enough to succeed |
| VmAlloc.CopyMeans | xv6/kernel/vm.c:298-326 | a copied page has equal contents and flags, on a frame that was free and that no other page of the child uses; the parent is unchanged |
| VmAlloc.OnePageOneEntry | xv6/kernel/vm.c:98-175 | two pages of an address space never share a frame |
| VmAlloc.Uvmcreate | xv6/kernel/vm.c:179-188 | an empty root, or 0 exactly when no page is free |
| VmFree.RemoveTable | xv6/kernel/vm.c:264-280 | a blank table leaves the tree and its page becomes free |
| VmFree.MappedIffBelongs | xv6/kernel/vm.c:264-290 | a page is mapped by an address space exactly when its owner is an entry beneath that root |
| VmFree.Freewalk | xv6/kernel/vm.c:264-280 | the leaf panic happens exactly when a bottom table still has a valid entry; otherwise every table at or beneath the node is freed once |
| VmFree.Uvmfree | xv6/kernel/vm.c:284-290 | an address space whose pages all lie below sz is taken apart without the panic: its frames and tables become free and nothing else changes |
| VmFree.ProcFreepagetable | xv6/kernel/proc.c:362-367 | the same with the trampoline and trapframe pages, which are unmapped and not freed |
| Mlfq.BoostFacts | xv6/kernel/proc.c:86-98 | a boost puts every process in use at priority 0 with a full slice, stamped in table order |
| Mlfq.BestIsLeast | xv6/kernel/proc.c:623-637 | the scan finds a RUNNABLE process that none precedes, and none exactly when no process is RUNNABLE |
| Mlfq.StepInv | xv6/kernel/proc.c:51-170 | every event keeps priorities in range, ticks below the slice, stamps distinct and below the counter, and the runner ahead of its own queue |
| Mlfq.RunInv | xv6/kernel/proc.c:51-170 | the same over every run |
| Mlfq.InitInv | xv6/kernel/proc.c:191-204 | it holds at boot |
| MlfqQueues.QueueOk | xv6/kernel/proc.c:51-82 | the RUNNABLE processes of a level in stamp order form its queue |
| MlfqQueues.QueueUnique | xv6/kernel/proc.c:51-82 | and no other list is its queue |
| MlfqQueues.BestIsHead | xv6/kernel/proc.c:623-637 | the scheduler's pick is the head of the first non-empty queue |
| MlfqQueues.BoostMakesOneQueue | xv6/kernel/proc.c:86-98 | a boost leaves one queue, in table order |
| MlfqFifo.RefinesFifo | xv6/kernel/proc.c:51-170 | every event of the kernel, seen through the RUNNABLE processes of each level in stamp order, is the step of an independent machine: four FIFO queues with slices of 1, 4, 8 and 16 ticks, its own tick count and level per process, a boost every 48 ticks, preemption by a higher queue |
| MlfqFifo.RunRefines | xv6/kernel/proc.c:51-170 | and so does every run |
| MlfqFifo.CanPick | xv6/kernel/proc.c:616-653 | the scheduler has a process to pick exactly when a queue is not empty |
| MlfqFifo.UsedIsTicksHad | xv6/kernel/proc.c:149-157 | in every run a process has used exactly the ticks it has had since its last start, wakeup, boost or exhausted slice |
| MlfqFifo.SliceLasts | xv6/kernel/proc.c:149-157 | short of 1, 4, 8 or 16 ticks at its level a process keeps level and count, whoever runs in between |
| MlfqFifo.DemotedExactly | xv6/kernel/proc.c:149-158 | without sleep or boost it goes down a level, or at level 3 to its tail, at exactly its 1st, 4th, 8th or 16th tick there, and then waits at the tail with a full slice |
| MlfqFifo.FullSlice | xv6/kernel/proc.c:74-82 | a new or woken process has a full slice, the woken one at its old level |
| MlfqBound.DispatchBound | xv6/kernel/proc.c:616-653 | behind r others in queue 0 and without a boost, a process is passed over at most r times |
| MlfqBound.PickedBeforeBoost | xv6/kernel/proc.c:104-118 | with r others ahead in queue 0, no boost comes before its pick as long as r, the ticks elapsed and the uncharged timer interrupts stay below 48 |
| MlfqBound.BoostComesFirst | xv6/kernel/proc.c:104-118 | the bound is exact: from every idle state with no tick elapsed, a run with 48 - r uncharged interrupts, none for r of 48 or more, boosts before the process behind r > 0 others is picked |
| MlfqBound.PickedBeforeBoostIff | xv6/kernel/proc.c:104-118 | behind r others just after a boost, every run with at most u uncharged interrupts picks the process before the next boost if and only if r is 0 or r + u is below 48 |
| MlfqBound.Crowd | xv6/kernel/proc.c:412-458 | from boot, any number of processes up to NPROC can stand in queue 0 with the hart idle and no tick elapsed |
| MlfqBound.AfterBoost | xv6/kernel/proc.c:142-170 | a tick that boosts leaves the hart idle and every RUNNABLE process in queue 0, with the count of ticks at zero |
| MlfqBound.NoOneOutranksRunner | xv6/kernel/proc.c:158-170 | after a tick, and the pick it may cause, no RUNNABLE process has a better priority than the running one |
| MlfqCode.Hart.constructor | xv6/kernel/proc.c:191-204 | the state at boot |
| MlfqCode.Hart.EnqueueProc | xv6/kernel/proc.c:74-82 | refines the enqueue of the model |
| MlfqCode.Hart.BoostAll | xv6/kernel/proc.c:86-98 | the loop over the table refines the boost of the model |
| MlfqCode.Hart.MaybeBoostNow | xv6/kernel/proc.c:100-118 | refines the conditional boost |
| MlfqCode.Hart.HigherPriorityExists | xv6/kernel/proc.c:120-136 | true exactly when a RUNNABLE process has a smaller priority number |
| MlfqCode.Hart.TimerInterrupt | xv6/kernel/proc.c:142-170 | refines the tick of the model, and from every reachable state the timer step of the machine of queues |
| MlfqCode.Hart.Pick | xv6/kernel/proc.c:616-653 | the scan loop refines the dispatch of the model, and from every reachable state takes the head of the first non-empty queue |
| SleepLock.StepInv | xv6/kernel/sleeplock.c:21-44 | every section of acquiresleep, releasesleep and kkill, and every visit of wakeup, keeps: one holder named by pid, waiters registered only while the lock is held or their wakeup is coming, no wakeup missed |
| SleepLock.SafeInEveryRun | xv6/kernel/sleeplock.c:21-44 | in every run at most one process holds the lock, a sleeper has seen no wakeup since it registered, and no one sleeps on a free lock |
| SleepLock.AcquireEnds | xv6/kernel/sleeplock.c:21-33 | acquiresleep ends only by the caller taking a free lock; on a held one it registers, and then sleeps exactly if still registered |
| SleepLock.ReleaseEnds | xv6/kernel/sleeplock.c:36-44 | releasesleep frees the lock, and ends only when its wakeup has visited every process |
| SleepLock.SleeperGetsLock | xv6/kernel/sleeplock.c:21-44 | from every reachable state with a sleeper and an owner, the release and its wakeup lead to the sleeper owning the lock |
| SleepLock.SleepIsReached | xv6/kernel/sleeplock.c:21-33 | such states are reached |
| WaitExit.StepInv | xv6/kernel/proc.c:411-573 | every section of kfork, kwait, kexit, reparent, wakeup and kkill keeps: every process in use has a live parent, a registered process has no zombie child except init while its wakeup is coming, no wakeup missed, and a scan has noted children exactly if it has passed one and has passed no zombie child |
| WaitExit.NoZombieIsMissed | xv6/kernel/proc.c:463-573 | in every run from boot a sleeper in kwait has seen no wakeup since it registered, every zombie has a live parent, and outside wait_lock no registered process has a zombie child |
| WaitRuns.LeavesWait | xv6/kernel/proc.c:520-573 | kwait is left only by the caller, under wait_lock: with exactly one zombie child of its own freed and nothing else changed, without one only if childless or killed, or by a failed copy that leaves the zombie |
| WaitRuns.OtherKeepsWait | xv6/kernel/proc.c:520-573 | no one else takes a process out of kwait |
| WaitRuns.EndOfScan | xv6/kernel/proc.c:532-571 | at the end of a scan no child is a zombie; the caller returns exactly if childless or killed, and is registered otherwise |
| WaitRuns.ParentChanges | xv6/kernel/proc.c:440-512 | a process gets another parent only when its parent exits, namely init, or when its parent frees it |
| WaitRuns.BecomesZombie | xv6/kernel/proc.c:463-518 | a process becomes a zombie only at the end of its own exit, with all its children given away |
| WaitRuns.ExitEndsWait | xv6/kernel/proc.c:463-573 | from every reachable state with a sleeper in kwait, the exit of a child leads to the sleeper out of kwait and that child freed |
| WaitRuns.SleepIsReached | xv6/kernel/proc.c:562-570 | such states are reached from boot |
| Bitmap.MarkUsed | xv6/kernel/fs.c:77-79 | setting a block's bit changes the answer for that block only |
| Bitmap.UnmarkUsed | xv6/kernel/fs.c:99-104 | clearing it likewise |
| Bitmap.BitOfBlock | xv6/kernel/fs.c:77-79 | a block's bit is bit b % 8 of byte b / 8 |
| Inodes.WordOfSet | xv6/kernel/fs.c:445-450 | a word stored in an indirect block reads back, and the other words are as before |
| Inodes.OwnedOnce | xv6/kernel/fs.c:410-418 | a block number found in two places is found in the same place, and its bit is set |
| Inodes.SetAddr | xv6/kernel/fs.c:427-432 | filling an empty address of an inode with an unowned block gives that block to that place and changes no other |
| Inodes.SetEntry | xv6/kernel/fs.c:445-451 | likewise for an empty entry of an indirect block |
| Inodes.GrowsContents | xv6/kernel/fs.c:420-459 | allocating blocks to empty places shows in no file |
| Inodes.SlotPoints | xv6/kernel/fs.c:420-459 | the block of file block bn is addrs[bn] below 12, and from there the little-endian number at byte 4 * (bn - 12) of block addrs[12] |
| Inodes.ByteIsOnDisk | xv6/kernel/fs.c:509-534 | byte x of a file is byte x % 1024 of the block that the raw addresses give for x / 1024 |
| Inodes.SpliceAt | xv6/kernel/fs.c:543-579 | what a write leaves in the file, byte by byte |
| Truncate.FreedExactly | xv6/kernel/fs.c:463-491 | the bits that a truncation cleared are those of the inode's own blocks |
| FileBytes.PatchWrote | xv6/kernel/fs.c:556-568 | writing inside the block of a position changes those bytes of that file and no other byte of any file |
| FileBytes.WroteDone | xv6/kernel/fs.c:570-571 | with the size update, the file is the old one with the bytes spliced in, and every block below a size is there |
| FileBytes.ChunkFits | xv6/kernel/file.c:153 | the bound on what a chunk of filewrite logs is at most MAXOPBLOCKS, and equal to it for a full unaligned chunk |
| FileBytes.LongerChunkDoesNot | xv6/kernel/file.c:153 | for a chunk one block longer the bound exceeds MAXOPBLOCKS |
| LogBudget.RoundKeeps | xv6/kernel/fs.c:553-569 | each round of writei's loop adds to the log at most its data block, a bitmap block per new block, and the indirect block with its bitmap block once |
| LogBudget.Total | xv6/kernel/fs.c:543-579 | the rounds together stay one block below the cost of the write, which leaves a place for the inode's block |
| Fs.FileSystem.constructor | xv6/kernel/fs.c:42-49 | a mounted image in which ownership and bitmap agree and every block below a size is mapped |
| Fs.FileSystem.FindFree | xv6/kernel/fs.c:73-88 | the two loops find the first unmarked block, and none exactly when all are marked |
| Fs.FileSystem.Balloc | xv6/kernel/fs.c:66-90 | the first free block is marked and zeroed and nothing else changes, or the disk is full |
| Fs.FileSystem.Bfree | xv6/kernel/fs.c:93-107 | the bit is cleared, or the panic happens exactly when it was clear |
| Fs.FileSystem.Bmap | xv6/kernel/fs.c:420-459 | the block number that the raw addresses, direct or indirect, give for the file block, allocated only if there was none and 0 only if the disk is full; ownership is kept on every path, and only empty places of that inode are filled |
| Fs.FileSystem.Itrunc | xv6/kernel/fs.c:461-491 | the file becomes empty, exactly its blocks become free, no bfree panics, and no other inode or block changes |
| Fs.FileSystem.WriteRound | xv6/kernel/fs.c:553-569 | one round writes up to a block's worth of bytes and says what it logs |
| Fs.FileSystem.Writei | xv6/kernel/fs.c:543-579 | refused exactly on a bad range; otherwise a prefix of the data, all of it unless the disk is full, is spliced into the file, and stands in the blocks that the raw addresses then give; other files are unchanged, everything changed on disk is logged, the log cost is bounded, and each log_write, iupdate's last one included, finds less than that cost logged |
| Fs.FileSystem.Iupdate | xv6/kernel/fs.c:227-243 | the inode on disk becomes the one in memory, and its block is logged |
| Fs.FileSystem.Readi | xv6/kernel/fs.c:509-534 | the clipped slice of the file, read from the blocks that the raw addresses give; nothing is allocated, logged or changed |
| FileLayer.File.Filewrite | xv6/kernel/file.c:134-179 | the bytes written are spliced in at the cursor, which moves past them; every operation logs at most MAXOPBLOCKS blocks; the result is n exactly when all were written |
| FileLayer.File.WriteChunk | xv6/kernel/file.c:160-165 | one operation writes one chunk; it logs at most MAXOPBLOCKS blocks and fewer before each of its log_writes |
| FileLayer.LogWriteHasRoom | xv6/kernel/log.c:229-230 | an operation that has added no more than a chunk had logged before a log_write does not reach the full-log panic, whatever the other operations do |
| OnDisk.UnloggedSame | xv6/kernel/fs.c:227-243 | a block that is not logged is the same on disk before and after |
| OnDisk.ReadsBack | xv6/kernel/fs.h:32-51 | bitmap, inodes and data blocks written to disk in the layout of the source read back the same |
| OnDisk.InodeFormat | xv6/kernel/fs.h:31-45 | inode i is words 16 * (i % 16) on of block inodestart + i / 16, the size third and the addresses after it |
| OnDisk.BitmapFormat | xv6/kernel/fs.h:47-51 | bit b is bit b % 8 of byte b / 8 % 1024 of block bmapstart + b / 8192 |
| OnDisk.DataFormat | xv6/kernel/fs.c:445-450 | a data block is its own block of the disk, four little-endian bytes a word |
| OnDisk.AlikeSound | xv6/kernel/fs.c:420-459 | ownership and bitmap of the image read back agree if those of the written one do |
| OnDisk.AlikeFiles | xv6/kernel/fs.c:509-534 | every file of the image read back has the contents it had in the written one |
| DurableFile.LoggedIsEnough | xv6/kernel/log.c:214-222 | writing an operation's logged blocks over the disk it started from gives the disk of its result |
| DurableFile.CommitOperation | xv6/kernel/log.c:154-184 | the operation's blocks reach the disk as one transaction: every disk in between recovers to the image before it or to the image after it |
| DurableFile.DurableFilewrite | xv6/kernel/file.c:134-179 | whenever the machine stops during filewrite, the disk recovers to a sound image in which the file has a whole number of chunks, or all that was written, spliced in, and every other file is as it was |
| DurableFile.CrashReadsAs | xv6/kernel/log.c:118-125 | mounting the recovered disk finds a sound file system whose files read as in that image |
| FileLayer.File.Fileread | xv6/kernel/file.c:120-124 | the bytes at the cursor, which moves past them; no block is allocated or logged |
| Pipes.Occupancy | xv6/kernel/pipe.c:88-118 | the full and empty tests on wrapped counters decide whether 512 or 0 bytes wait |
| Pipes.Pipe.constructor | xv6/kernel/pipe.c:33-36 | an empty pipe, both ends open |
| Pipes.Pipe.WriteSection | xv6/kernel/pipe.c:76-108 | a section appends the readable bytes it took in order; with bytes left a closed reader or a killed writer gives -1 and takes nothing, an unreadable byte ends the call with the count so far or -1 if there is none, a full pipe puts the writer to sleep, and nothing left returns the count: each exactly then |
| Pipes.Pipe.ReadSection | xv6/kernel/pipe.c:110-143 | a section takes the oldest bytes in order, a byte whose copyout fails stays; it sleeps exactly when the pipe is empty and open and the reader not killed; a positive read returns 0 exactly when the pipe is empty and the writer closed |
| Pipes.Pipe.Close | xv6/kernel/pipe.c:58-74 | one end closes, and the page is freed when both are closed |
| Pipes.Run | xv6/kernel/pipe.c:76-143 | for any calls interleaved section by section in any order: occupancy in 0..512, delivered bytes a prefix of accepted ones, each writer's bytes in once and in its order, each byte out to one reader |
| ShLex.LexesExact | xv6/user/sh.c:271-314 | lexing a stretch of the line meets every word in it once |
| ShGrammar.LineWords | xv6/user/sh.c:350-452 | the arguments and files of a parsed line are the words of its derivation |
| ShParse.Parser.Peek | xv6/user/sh.c:316-326 | skips white space, and says whether one of the symbols is next; if the lexemes ahead are known, it answers by the first of them |
| ShParse.Parser.Gettoken | xv6/user/sh.c:271-314 | the next lexeme, a word being a maximal stretch of word characters, or 0 only at the end of the line |
| ShLex.TokenIs | xv6/user/sh.c:271-314 | if the lexemes ahead are known, the lexeme gettoken passes is the first of them and the others are ahead |
| ShParse.Parser.Parseline | xv6/user/sh.c:350-365 | what it accepts derives from the grammar's line, and the tree is the derivation's; if a line of the grammar and something that may follow it is ahead, it accepts exactly that line; it ends |
| ShParse.Parser.Parsepipe | xv6/user/sh.c:367-378 | likewise for a pipeline |
| ShParse.Parser.Parseredirs | xv6/user/sh.c:380-403 | likewise for redirections, with their files, modes and descriptors |
| ShParse.Parser.Parseblock | xv6/user/sh.c:405-419 | likewise for a line in parentheses |
| ShParse.Parser.ParseSimple | xv6/user/sh.c:431-451 | likewise for words and redirections in any order, with fewer than MAXARGS words; where the words stand in the line is ShParse.Parsecmd's and ShOrder's claim |
| ShParse.Parser.Parseexec | xv6/user/sh.c:421-452 | likewise for a command of either kind |
| ShParse.Nulterminate | xv6/user/sh.c:454-499 | a NUL goes after every argument and file, and no other byte changes |
| ShParse.EndIsOutside | xv6/user/sh.c:454-499 | every NUL falls outside every word |
| ShParse.ReadsAsLexed | xv6/user/sh.c:454-499 | so each argument and file reads as the word that was lexed |
| ShParse.Parsecmd | xv6/user/sh.c:333-348 | the lines accepted are exactly those of the grammar, with the tree of their one derivation; an accepted line's tokens are the words of the line once each, stand in the tree in line order with each operator between its sides, and in the buffer left behind each token reads as its word; a refused line is left as it was |
| ShOrder.LineSpans | xv6/user/sh.c:350-452 | a command stands in its stretch of the line: arguments one after the other, the bar or semicolon between the sides, the ampersand behind, and before each file the characters that give its mode and descriptor |
| ShOrder.TokensInside | xv6/user/sh.c:421-452 | every token of a command stands in its stretch |
| ShOrder.SidesInOrder | xv6/user/sh.c:350-378 | in a pipe or list every token of the left side ends before every token of the right side starts |
| Lexer.LexInput | c-shell/src/lexer.c:25-129 | the loop computes the token list of the specification, and refuses exactly the broken lines |
| Lexer.ScanPieces | c-shell/src/lexer.c:70-118 | a word written as pieces that are plain, escaped, in single quotes or in double quotes with their escapes scans to the concatenation of what they stand for |
| Lexer.LineRoundTrip | c-shell/src/lexer.c:25-129 | operators and words, however written and with or without blanks where they may touch, lex to themselves |
| Lexer.AcceptedIsSpelled | c-shell/src/lexer.c:25-129 | every accepted line is such a line of tokens |
| Lexer.LexIffSpelled | c-shell/src/lexer.c:25-129 | so a line lexes to a token list exactly if it is a spelling of it |
| Lexer.RefusedIffBroken | c-shell/src/lexer.c:25-129 | a line is refused exactly if, read from the left, it ends inside quotes or has an unquoted backslash before a newline or the end |
| Lexer.RoundTrip | c-shell/src/lexer.c:25-129 | every list of tokens, empty words included, survives rendering in single quotes and lexing |
| Peek.BackwardIsMirror | c-shell/src/peek.c:150-160 | reversed printing is the mirror image of forward printing: every non-empty line keeps its number |
| Peek.PrintForward | c-shell/src/peek.c:26-38 | the lines in order, non-empty ones numbered on from the counter |
| Peek.PrintReverseBuffered | c-shell/src/peek.c:39-67 | the lines last to first, numbered down to the offset |
| Peek.PrintReverseChunked | c-shell/src/peek.c:69-125 | for every chunk size, the same output as from memory, except nothing for a lone newline |
| Peek.CountNonEmpty | c-shell/src/peek.c:14-25 | the number of non-empty lines |
| Peek.LinesAre | c-shell/src/peek.c:26-30 | the lines are the contents cut after each newline |
| Peek.PrintsContents | c-shell/src/peek.c:26-38 | without numbers the contents come out as they are, with a newline added if they end without one |
| Peek.ForwardAt | c-shell/src/peek.c:26-38 | each non-empty line is printed with the number of non-empty lines before it added to the counter |
| Peek.DecimalIs | c-shell/src/peek.c:31-33 | the digits of a printed number evaluate to it, without a leading zero, with a minus sign if it is negative |
| Peek.LoneNewlineDiffers | c-shell/src/peek.c:73-77 | for a lone newline the buffered form prints a newline |
| Peek.RunReverseNumbered | c-shell/src/peek.c:150-185 | over several files each one is the mirror image of its part of the forward numbering |
| Peek.RunForwardNumbered | c-shell/src/peek.c:187-219 | over several files the numbers run on |

## Left out

- Hardware and assembly (`virtio_disk.c`, `uart.c`, `plic.c`, `start.c`, `*.S`): a disk transfer is one atomic block read or write, a timer interrupt one event.
- Spin locks: acquire and release delimit steps; memory ordering is not modelled.
- `exec.c`, `syscall.c`, `sysproc.c`, `sysfile.c`, `console.c`, `printk.c`: argument plumbing, program loading and output.
- `walkaddr`, `copyin`, `copyout`, `copyinstr`, `vmfault`, `growproc` and the kernel's own page table: they would add easy members on top of `Walk` and `Mappages`.
- Directories, path lookup, `ialloc`, the inode cache and reference counts: the file model starts from inodes that are loaded.
- The type, device and link count of an inode: the on-disk inode has its size and addresses, and zeros in their place.
- Concurrency inside the file system: `Fs`, `File` and `DurableFile` run one operation at a time; `Kernel`, `LogProtocol`, `SleepLock`, `WaitExit` and `Pipe` model the interleavings.
- Bio.Bcache.Bread: a bread that need not wait for the block's lock; `KernelRun` has the waiting one, as separate turns.
- LogLayer.Log.Commit: a commit in one piece, whose breads need not wait for a logged block's lock; `KernelRun` interleaves its sections with readers. The same holds for its parts.
- LogLayer.Log.WriteLog: as LogLayer.Log.Commit.
- LogLayer.Log.WriteHead: as LogLayer.Log.Commit.
- LogLayer.Log.InstallCommitted: as LogLayer.Log.Commit.
- LogLayer.Log.Store: a use in one piece that need not wait for the block's lock; `KernelRun` has the sections.
- LogLayer.Log.Fetch: as LogLayer.Log.Store.
- BlockStore.RunTransaction: one process with nothing else going on; `KernelRun.Kernel.Run` is the statement for any interleaving.
- BlockStore.Serve: one request after the other; `KernelRun.Kernel.Run` is the statement for any interleaving.
- KernelRun.Kernel.Take: memmove and bwrite by a lock holder are one turn, as no one else can look at the buffer in between; processes log what they modify before they release it, as the callers of log_write do.
- FileBytes.ChunkFits: says that the bound is met with equality, not that some image makes a write log that many blocks; that needs a disk with four bitmap blocks, and the repository's has one.
- FileBytes.LongerChunkDoesNot: says that the bound is exceeded, not that some image makes a write exceed it.
- Devices other than the root device; buffers still tagged (0, 0) since boot are exempt from uniqueness, as in the code.
- More than one hart: the scheduler model has one; its stamp counter is unbounded, where the source's is 64 bits wide.
- The wakeups of the pipe, which a writer killed in mid-write skips; the pipe claims are about order and occupancy.
- Failed user copies inside readi and writei: copies succeed, as a failed one may leave a block partly updated.
- Fs.FileSystem.Writei: the path of a failed copy is left out; so it is in Fs.FileSystem.Readi, FileLayer.File.Filewrite and FileLayer.File.Fileread.
- Fs.FileSystem.constructor: starts from an image that is sound already; building one is mkfs's work.
- VmFree.Freewalk: takes the tables this kernel builds, in which a valid entry that is no pointer has at least one of R, W and X.
- Negative byte counts, which fileread, filewrite and the shells' callers refuse at once.
- Umalloc.Heap.Malloc: takes requests up to 0x7fffffe0 bytes, because beyond that the argument of sbrk is no longer the size meant.
- Lexer.LexInput: takes words that fit the 4096 byte buffer, which the model does not bound.
- Peek.PrintReverseChunked: takes contents without NUL characters, at which printf would stop.
- The other builtins, job control, redirection and prompt of the C shell, and its one-token parser.
- `grep.c`, `mkfs.c`, the user test programs, the scripts and the makefiles.
