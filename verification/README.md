# xv6-upgraded in Dafny

This project models the core of an extended x86 xv6 kernel, with 4096-byte blocks, a name cache and
file modes, together with its user-level allocator, its shell parser and its pattern matcher, and
proves what each of these parts promises.  Each `.dfy` file is one module, and
`dafny verify dfyconfig.toml` checks all of them.

How the parts are modelled:

- **Write-ahead log** (`WriteAheadLog`, `LogSteps`, `LogCode`, `LogProtocol`, `LogAdmission`).  The disk is a sequence
  of blocks and a `bwrite` one atomic step.  `LogCode` has the procedures of log.c on top of the buffer
  cache, which records the order of the writes; `WriteAheadLog` is about every prefix of that order,
  that is every crash point, of a commit and of a recovery; `LogProtocol` is a state machine of
  arbitrarily many interleaved operations with crashes anywhere, including inside recovery, and nlog a
  parameter; `LogAdmission` is about which operations begin_op lets in.
- **Buffer cache** (`BufferRing`, `BufferState`, `Bio`).  The LRU list is a ring of array indices.
  Each method of `Bio.BufferCache` is what one process does inside one lock, so any interleaving of
  processes is a sequence of its steps; a token names each `bget` that has not been released.
- **Heap** (`Umalloc`).  The circular free list of section 8.7 of Kernighan & Ritchie, The C
  Programming Language, second edition, in units of a header.  Every unit that sbrk supplied is
  owned by exactly one block, free or live.
- **Processes** (`ProcTable`, `ProcProtocol`, `SleepWakeup`).  The table updates of proc.c as methods on an
  array; the scheduler, fork, exit, wait, yield, sleep and kill as a state machine over any number
  of CPUs and processes; sleep, wakeup, spin-locks and sleep-locks as a second one in which every
  xchg, release, store to a lock or to the table and scan position is a step of its own.
- **Memory** (`Paging`, `VmState`, `Kernel`, `VmRange`, `VmTeardown`, `VmSetup`, `VmBuild`,
  `UserMemory`).  Physical memory word by word, with the page tables and the links of the free list
  stored in it.  An owner map says what each page is: free pages are those without one.
- **File system** (`Blocks`, `FsState`, `FsTruncate`, `FsLogging`, `FileSystem`, `Bitmap`, `Mkfs`, `MkfsMain`,
  `MkfsRoot`).
  Blocks are bytes, an indirect block is read as words, and an owner map records the one slot that
  refers to each block.  The bitmap is bytes.  mkfs builds a state that satisfies the same invariant,
  and the kernel starts from the bytes mkfs wrote.
- **Names** (`Names`, `NameCache`, `Directory`).  Fixed-size name fields, paths, the cache and the
  directories it must agree with.
- **Shell** (`Shell`, `ShellTokens`, `ShellPlaces`, `ShellGrammar`, `ShellParse`, `ShellRoundTrip`).
  The parser as functions of the line and the cursor; a grammar over the tokens of a line, which the
  parser decides; `nulterminate` in place on an array; and a printer that the parser undoes.
- **Pipe and matcher** (`PipeRing`, `Grep`).  A ring with counters that wrap at 32 bits; matching as
  membership in the language a pattern denotes.

Where a promise does not hold of the code as written, the code is kept and the model says exactly
when it holds:

- The log never refuses an operation within its reservation if and only if nlog is at least LOGSIZE + 1,
  and a log of two blocks or more is crash safe if and only if nlog is at least NBUF
  (`LogProtocol.LogSizeMatters`).  mkfs makes nlog LOGSIZE, which is NBUF: crash safe, but not free of refusals
  (`MkfsMain.ShippedLog`).
- `begin_op` sees the number of listed blocks and of active operations, and refuses if and only if some
  run with these numbers would run out of room with one more operation
  (`LogAdmission.AdmissionIsExact`).  In a given run one more is safe if and only if the blocks listed, what
  the active operations have left and MAXOPBLOCKS fit in LOGSIZE (`LogAdmission.RunsOutExactly`), so it
  refuses some that are safe (`LogAdmission.RefusedNeedlessly`).
- `log_write` panics if and only if the list is full, also for a block that needs no new slot
  (`LogProtocol.RefusedExactly`).
- `commit` has a buffer for its slots if and only if it lists fewer than NBUF blocks
  (`LogCode.Log.Commit`); some run whose operations keep to their reservations lists as many and halts
  there if and only if nlog is at least NBUF - 1 (`LogProtocol.HaltsExactly`, `LogProtocol.HaltsWhenLarge`).
- `pipewrite` makes data available without waking the readers if and only if the pipe was empty, more
  bytes are to be written than fit, and the read end is closed or the process killed
  (`PipeRing.Ring.Write`).
- `unlink` removes the name if and only if the name cache missed or the entry is the first of its
  directory (`Directory.UnlinkRemoves`, with an example in `Directory.UnlinkMisses`).
- When a directory's inode number goes to a new directory, lookups through the name cache find there what
  the directory holds if and only if the cache has no link under the number (`Directory.FreeAgrees`); a
  lookup in a removed directory leaves one (`Directory.StaleLink`).
- `create` panics with "create dots" if and only if it makes a directory and the cache has a link for "."
  under the new inode number, or one for ".." that is not in the slot to be replaced next
  (`Directory.Namespace.Create`); removing the current directory and going to ".." leads there
  (`Directory.LeavingBlocksDots`).
- fork hands out a process that is not marked killed if and only if no kill has hit its slot since wait
  last collected it (`ProcProtocol.MarkedExactly`); kill with pid 0 hits free slots
  (`ProcProtocol.KilledBeforeBirth`).
- mkfs's rounding of the root directory's size leaves a sound image if and only if the size was not
  a multiple of the block size (`MkfsMain.RootSize`), which fewer than 256 inodes guarantee.
- `malloc` computes a block that holds the request, and asks sbrk for all of it, if and only if the
  request is at most 0x7FFFFFF0 bytes (`Umalloc.RequestHonoured`).
- `growproc` leaves exactly the pages below the size present if and only if it is not asked to shrink
  a nonzero size to zero (`UserMemory.Growproc`).

Panics are results of the model: a method returns a value that stands for the panic, and its contract
says exactly when, or that it does not happen.

## Model

| member | source | states |
|---|---|---|
| `WriteAheadLog.CommitIsAtomic` | log.c:177-202 | After any number k of the disk writes of a commit the recoverable file system is the old one if the header had not been written and the old one with all logged blocks applied if it had; when all writes are done the home blocks hold it and the log is empty. |
| `WriteAheadLog.RecoveryIsIdempotent` | log.c:115-122 | A recovery cut off after any of its writes has not changed what a recovery would yield, and one that finishes leaves exactly that in the home blocks, with an empty log. |
| `WriteAheadLog.RecoveriesKeepDurable` | log.c:115-122 | Any number of recoveries, each cut off anywhere, leaves the recoverable file system as it was. |
| `WriteAheadLog.CommitCrashRecover` | log.c:68-122 | A crash at any point of a commit, any number of crashes inside recovery and then one full recovery: the home blocks are the old ones or the new ones as a whole, and the log is empty. |
| `WriteAheadLog.CommitEnds` | log.c:192-202 | A whole commit puts every logged block in its home block, changes no other home block and empties the log. |
| `WriteAheadLog.CommitWritesAhead` | log.c:177-202 | The write-ahead rule of commit: whenever one of its writes goes to a home block, the header on disk already lists that block and its slot already holds the same contents. |
| `WriteAheadLog.RecoveryWritesAhead` | log.c:68-122 | The same of every write of a recovery. |
| `WriteAheadLog.CommitPlanIs` | log.c:68-202 | The copying loops of write_log and install_trans, each turn seeing through the cache what the turns before it wrote, write the pinned contents to the slots and then home, when every listed block has a slot in the log. |
| `LogCode.Log.Bwrite` | log.c:177-202 | Every bwrite that log.c makes goes through the buffer cache and is proved to obey the write-ahead rule: a home block is written only when header and slot on disk are ahead of it. |
| `LogCode.Log.InstallTrans` | log.c:69-82 | The loop, on cache buffers, copies slot after slot to the home block the header lists for it and unpins it; it has buffers enough after a write_log that had, and at boot. |
| `LogCode.Log.CopyTurn` | log.c:74-81 | One turn of the copying loops: two bread, memmove, bwrite, two brelse; it fails exactly when the pinned blocks and the two do not fit into the cache, and then nothing is written. |
| `LogCode.Log.ReadHead` | log.c:85-96 | The in-memory list becomes the list in the header block; fails exactly when the pinned blocks fill the cache. |
| `LogCode.Log.WriteHead` | log.c:101-113 | The header block becomes the in-memory count and list, in one write. |
| `LogCode.Log.RecoverFromLog` | log.c:115-122 | The home blocks become the recoverable file system, the log is empty, and the writes are those whose prefixes RecoveryIsIdempotent is about. |
| `LogCode.Log.WriteLog` | log.c:177-190 | The cached contents of the i-th listed block go to slot i, in order; fails, with nothing written, exactly when the listed blocks fill the cache. |
| `LogCode.Log.Commit` | log.c:192-202 | Its writes, in order, are those whose prefixes CommitIsAtomic is about; afterwards every pinned block is home and nothing is pinned.  It panics for want of a buffer, with nothing written, exactly when the list has NBUF blocks. |
| `LogCode.Log.WriteAhead` | log.c:196-197 | The first half of commit: slots, then the header that commits. |
| `LogCode.Log.Install` | log.c:198-200 | The second half: home blocks, then the empty header. |
| `LogCode.Log.BeginOp` | log.c:125-141 | An operation is admitted exactly when no commit runs and the reservations, with its own, fit in LOGSIZE; LogAdmission.AdmissionIsExact says why that is neither too much nor too little. |
| `LogCode.Log.EndOp` | log.c:145-174 | The last operation out commits everything pinned; the others change nothing; the panics happen exactly when a commit is in progress or the list fills the cache. |
| `LogCode.Log.LogWrite` | log.c:213-233 | Refused exactly when the size test or the transaction test fails; otherwise the block is in the list once, its buffer is pinned, and what will be committed for it is what the buffer holds. |
| `LogProtocol.GroupCommit` | log.c:125-174 | In every run of any number of operations a commit runs only when none is active, and an operation within its reservation finds room in the list. |
| `LogProtocol.RunKeepsBooked` | log.c:125-174 | In every run the blocks listed plus the unspent reservations never exceed LOGSIZE. |
| `LogProtocol.CrashSafety` | log.c:68-233 | At every moment of every run with crashes anywhere, what recovery would yield is the initial file system with the committed batches applied in order; for a log of at least NBUF blocks without any condition, for a smaller one as long as the list has not outgrown the log region. |
| `LogProtocol.AllOrNothing` | log.c:125-233 | In every run, a committed batch with one update of an operation has all its updates, in order, and the operation had ended. |
| `LogProtocol.Durability` | log.c:68-233 | Once a batch is committed, what any later recovery yields contains all updates of its operations, whatever crashes come between; for a log of at least NBUF blocks, or a smaller one whose list has not outgrown it. |
| `LogProtocol.HistoryGrows` | log.c:192-202 | Committed batches are never taken back. |
| `LogProtocol.NoEarlyWrite` | log.c:177-202 | In every run a home block changes on disk only when the header on disk lists it and its slot holds the new contents; for a log of at least NBUF blocks, or a smaller one whose list has not outgrown it. |
| `LogProtocol.LogSizeMatters` | log.c:218-223 | On a disk with more home blocks after the log than the log has blocks: writes within their reservations are never refused exactly when nlog is at least LOGSIZE + 1; from two log blocks on, slots stay inside the log exactly when nlog is at least LOGSIZE + 1, and runs are crash safe exactly when nlog is at least NBUF. |
| `LogProtocol.EnoughIsCrashSafe` | log.c:68-233 | With nlog at least NBUF every run, from any readable disk, is crash safe: a list that fills the log halts its commit before the first write. |
| `LogProtocol.SmallLogRefuses` | mkfs.c:25 | With nlog as mkfs sets it, or smaller, and home blocks enough, some run has an operation refused within its reservation. |
| `LogProtocol.SmallLogOverruns` | log.c:218-223 | Because the size test is made without the lock, with nlog from 2 to LOGSIZE, and home blocks enough, some run lists nlog blocks, one more than the log has slots. |
| `LogProtocol.SmallLogLosesData` | log.c:177-190 | With nlog from 2 to NBUF - 1 its commit writes the extra slot over the home block after the log region: nothing is committed, no operation named that block, and its old contents are gone. |
| `LogProtocol.RefusedExactly` | log.c:218-221 | In every run, log_write of an active operation panics exactly when the list is full, LOGSIZE blocks or one less than nlog, whether or not the block is listed. |
| `LogProtocol.FullLogRefusesAbsorption` | log.c:218-219 | Also with a log of LOGSIZE + 1 or more blocks some run reaches a state where a write to an already listed block is refused; RefusedExactly says when. |
| `LogProtocol.HaltsExactly` | bio.c:78-93 | In every run the end_op of the last operation halts in its commit exactly when the list has NBUF blocks, and otherwise commits. |
| `LogProtocol.HaltsWhenLarge` | log.c:177-190 | Some run, with every operation within its reservation, comes to such a commit exactly when nlog is at least NBUF - 1 (given home blocks enough). |
| `LogProtocol.RunKeepsPaced` | log.c:218-231 | In every run at most three operations are active, and listed blocks and passed size tests together exceed nlog by at most one. |
| `LogAdmission.AdmissionIsExact` | log.c:125-141 | In every state of every run with no commit running, begin_op lets an operation in exactly if, with as many blocks listed and operations active as it sees, one more is safe however it came to that: exactly if the blocks listed and MAXOPBLOCKS for each active operation and the new one fit in LOGSIZE. |
| `LogAdmission.RunsOutExactly` | log.c:132-138 | In every state of every run: with one more operation, some continuation meets a full list with an operation short of its MAXOPBLOCKS, exactly if the blocks listed, what the active operations have left and its own MAXOPBLOCKS exceed LOGSIZE. |
| `LogAdmission.RefusalIsDue` | log.c:132-138 | For all numbers of blocks and operations at which begin_op refuses there is a run with these numbers in which one more operation would run out of room. |
| `LogAdmission.RefusedNeedlessly` | log.c:132-138 | A run in which it refuses although one more would be safe: it does not see how much each operation has used. |
| `BufferState.CacheRefinesDisk` | bio.c:39-141 | In every state of every run the ring holds every buffer once, no block of a disk is in two buffers, and a clean valid buffer that nobody has changed equals its disk block. |
| `BufferState.BreadReturnsLast` | bio.c:96-106 | Whoever holds a valid buffer unchanged holds the block they asked for, with what was last logged or written to it. |
| `BufferState.PinnedUntilWritten` | bio.c:78-91 | From log_write of a block to the next bwrite of it, in every interleaving, its buffer stays in the cache, dirty, and its home on disk does not change. |
| `BufferState.PinnedStays` | log.c:213-233 | A logged block has a dirty buffer, with what was last logged unless somebody has changed it since. |
| `BufferState.CleanIsDisk` | bio.c:17-19 | The invariant implies that a clean valid buffer that nobody has changed equals its disk block. |
| `BufferState.NextKeeps` | bio.c:39-141 | Every step of bget, acquiresleep, bread, log_write, bwrite and brelse keeps the invariant of the cache. |
| `BufferState.NextDisk` | bio.c:109-116 | Only a bwrite of a block changes it on disk, and nothing else ends its being pinned. |
| `BufferState.RunKeepsInv` | bio.c:38-56 | The invariant holds in every state reached from binit. |
| `BufferState.RoomFor` | bio.c:78-93 | bget finds a buffer for a block exactly when that block, the pinned blocks and the blocks being held fit into the cache. |
| `BufferRing.RingToFront` | bio.c:120-141 | Unlinking a buffer and linking it behind the head leaves one ring with the same buffers, that one first and the others in their order. |
| `BufferRing.RingRemove` | bio.c:132-133 | Unlinking a buffer leaves a ring of the others in their order. |
| `BufferRing.RingPush` | bio.c:134-137 | Linking a buffer behind the head leaves a ring with it first. |
| `Bio.BufferCache.constructor` | bio.c:38-56 | binit links all buffers into one ring; the cache starts in agreement with the disk. |
| `Bio.BufferCache.Search` | bio.c:69-76 | The forward walk finds a buffer of the block exactly when there is one. |
| `Bio.BufferCache.FindFree` | bio.c:81-91 | The backward walk finds the least recently used buffer that is neither referenced nor dirty, exactly when there is one. |
| `Bio.BufferCache.Bget` | bio.c:61-93 | A cached block is shared, otherwise the least recently used free buffer is taken over and marked not valid; the panic happens exactly when every buffer is busy. |
| `Bio.BufferCache.Lock` | sleeplock.c:22-32 | The caller with a reference becomes the owner of the buffer. |
| `Bio.BufferCache.Read` | bio.c:96-106 | On success the buffer is valid, and holds what was last logged or written to the block asked for unless somebody has changed it since. |
| `Bio.BufferCache.Store` | bio.c:9-13 | The owner changes the data; the cache stays consistent. |
| `Bio.BufferCache.Pin` | log.c:213-233 | The data become the block's last contents and the buffer is pinned by B_DIRTY; the disk does not change. |
| `Bio.BufferCache.Bwrite` | bio.c:109-116 | The disk block becomes the data, the buffer is clean and valid, and the write is recorded. |
| `Bio.BufferCache.Unlock` | bio.c:126 | brelse gives up the sleep-lock. |
| `Bio.BufferCache.Unref` | bio.c:128-138 | One reference less; with the last one the buffer moves to the front of the ring and all others keep their order. |
| `Bio.BufferCache.Bread` | bio.c:96-106 | The caller holds the only valid buffer of the block, locked, with what was last logged or written; the panic happens exactly when the block does not fit beside the pinned and held ones. |
| `Bio.BufferCache.Brelse` | bio.c:120-141 | The buffer is given up and all others stay as they are. |
| `Bio.BufferCache.PushInPlace` | bio.c:134-137 | The four pointer writes equal the list operation. |
| `Bio.BufferCache.UnlinkInPlace` | bio.c:132-133 | The two pointer writes equal the list operation. |
| `Umalloc.Heap.Free` | umalloc.c:24-44 | The search ends within one lap; the block joins the free list, coalesced with its neighbours; the list stays one address-ordered cycle and no unit is lost. |
| `Umalloc.Heap.JoinUpper` | umalloc.c:33-37 | Joining the block above keeps every unit owned by one block. |
| `Umalloc.Heap.JoinLower` | umalloc.c:38-42 | Joining the block below restores the whole invariant. |
| `Umalloc.Heap.Morecore` | umalloc.c:46-61 | What sbrk grants is free afterwards, at least 4096 units of it; a refusal changes nothing. |
| `Umalloc.Heap.Adopt` | umalloc.c:57-59 | A granted region becomes one block and is freed. |
| `Umalloc.RequestHonoured` | umalloc.c:46-71 | With the wrap-around of uint and the conversion to the int that sbrk takes, a block is large enough and sbrk is asked for all of it if and only if the request is at most 0x7FFFFFF0 bytes. |
| `Umalloc.Heap.Malloc` | umalloc.c:63-90 | For every request: returns a block of the units computed, disjoint from all live blocks; asks sbrk at most once and exactly when nothing fits; returns 0 exactly when that is refused, or would be for a wrong amount, which does not happen up to 0x7FFFFFF0 bytes. |
| `Umalloc.Heap.Take` | umalloc.c:76-84 | An exact fit leaves the list, a larger block is cut at its tail. |
| `Umalloc.FreeBlocksAreMaximalRuns` | umalloc.c:24-44 | The blocks of the free list are the maximal runs of free units: no two of them abut. |
| `Umalloc.FreeUnitsAreListed` | umalloc.c:24-44 | Every free unit lies in a block of the list. |
| `Umalloc.SizesAddUp` | umalloc.c:24-90 | The sizes of free and live blocks add up to what sbrk supplied. |
| `Umalloc.SearchEnds` | umalloc.c:30-32 | The two exits of free's search are taken at the place of the block and nowhere else. |
| `ProcTable.PTable.Wakeup1` | proc.c:463-471 | Exactly the sleepers on the channel become RUNNABLE. |
| `ProcTable.PTable.Allocproc` | proc.c:79-92 | The first unused slot becomes EMBRYO with a new pid; none only when there is none. |
| `ProcTable.PTable.Exit` | proc.c:256-271 | The parent is woken, the children go to init, which is woken if one is a zombie, and the process is a ZOMBIE. |
| `ProcTable.PTable.Wait` | proc.c:285-313 | Collects a zombie child if there is one: its slot is freed, and its kernel stack and page table are handed over to be freed; else says whether there is any child. |
| `ProcTable.PTable.Kill` | proc.c:485-503 | The first slot with the pid is marked killed and, if it sleeps, made runnable; its other fields and all other slots are unchanged; fails exactly when there is none. |
| `ProcProtocol.CpuOwnership` | proc.c:329-388 | Whenever ptable.lock is free, running processes and current processes of CPUs are in one-to-one correspondence. |
| `ProcProtocol.ZombieSafety` | proc.c:285-305 | When wait frees a stack and a page table, no CPU executes that process or has its page table loaded. |
| `ProcProtocol.ProcessTree` | proc.c:234-318 | Every process but init, alive or a zombie, has a parent, which is a live process; no process sleeps in wait while it has a zombie child or has been killed. |
| `ProcProtocol.CollectedOnce` | proc.c:278-318 | Every exited pid is returned by wait at most once, and until then a zombie holds it. |
| `ProcProtocol.EveryZombieCollectable` | proc.c:234-318 | Every pid that has exited and not been returned is that of a zombie whose parent is alive and not asleep in wait. |
| `ProcProtocol.KilledWakes` | proc.c:485-503 | In every run a process is not asleep at any time after a kill unless it has called sleep again since. |
| `ProcProtocol.MarkedExactly` | proc.c:299-303 | In every run a slot is marked killed exactly if a kill has hit it since wait last collected it; so what fork makes of it is unmarked exactly if none has. |
| `ProcProtocol.KilledBeforeBirth` | proc.c:485-503 | A run where one has: kill with pid 0 hits the first free slot, and fork hands it out marked. |
| `ProcProtocol.CollectedIsGone` | proc.c:299-303 | A pid that wait has returned is in no slot any more, used or free. |
| `ProcProtocol.RunKeepsInv` | proc.c:184-480 | Every reachable state of any number of processes and CPUs satisfies the invariant behind the theorems above. |
| `ProcProtocol.ReapIsSafe` | proc.c:285-305 | Inside the lock, no CPU is on a zombie. |
| `SleepWakeup.NoLostWakeup` | proc.c:424-480 | In every interleaving of single stores, a process asleep on a channel whose condition is true is still ahead of the scan of some waker, which is neither asleep nor waiting for a lock other than ptable.lock. |
| `SleepWakeup.SleepersHaveReason` | proc.c:424-480 | With no waker at work every sleeper's condition is false. |
| `SleepWakeup.SleepLockExclusion` | sleeplock.c:22-42 | At most one process is between acquiresleep and releasesleep; locked and pid say so, and say nothing else when no process is between two stores.  Test, store of locked and store of pid are steps of their own. |
| `SleepWakeup.HoldingSleep` | sleeplock.c:44-53 | What holdingsleep reads under the inner lock is true exactly when the caller has the sleep-lock. |
| `SleepWakeup.SpinLockExclusion` | spinlock.c:24-68 | With acquire as repeated xchg and release as a store: no two processes hold a spin-lock, and the word is 1 exactly when somebody does. |
| `SleepWakeup.RunKeepsInv` | proc.c:424-480 | Every reachable state satisfies the invariant behind the theorems above. |
| `Paging.WritePte` | vm.c:60-80 | Writing one entry of a page table changes the flat map from pages to entries at that page of that directory only. |
| `Paging.WriteTable` | vm.c:35-55 | A new empty page table leaves the flat map of every directory as it was. |
| `Paging.WriteData` | kalloc.c:59-77 | Overwriting a page that is neither directory nor table leaves every flat map as it was. |
| `VmState.PagesConserved` | vm.c:118-345 | What every operation keeps says: a page is in the free list or in exactly one use, never both, and whatever refers to it is that use. |
| `VmState.RightsAre` | vm.c:49-52 | In every state the rights to a page, writing and user access, asked of both levels as the processor does, are those of its page table entry: directory entries restrict nothing. |
| `VmState.TakenKeeps` | kalloc.c:82-95 | Taking the head of the free list keeps every page in exactly one place. |
| `VmState.GivenKeeps` | kalloc.c:59-77 | So does putting a page back at its head, junk and link written into the page. |
| `VmState.TabledKeeps` | vm.c:45-53 | So does a page becoming a page table. |
| `VmState.MapUserKeeps` | vm.c:69-73 | So does mapping a page for the user. |
| `VmState.MapKernelKeeps` | vm.c:69-73 | So does a kernel mapping, which hands no page over. |
| `VmState.UnmapKeeps` | vm.c:269-276 | So does clearing an entry. |
| `VmState.NewDirKeeps` | vm.c:124-126 | So does a page becoming a directory, whose flat map is empty. |
| `VmState.DetachKeeps` | vm.c:283-298 | So does taking a directory without user pages out of use. |
| `Kernel.Memory.constructor` | kalloc.c:31-44 | At boot every page is held and none is free. |
| `Kernel.Memory.Freerange` | kalloc.c:46-53 | Exactly the pages of the range become free. |
| `Kernel.Memory.Kalloc` | kalloc.c:82-95 | The head of the free list, or 0 exactly when it is empty. |
| `Kernel.Memory.Kfree` | kalloc.c:59-77 | The page is free; the panic happens exactly outside the range of pages. |
| `Kernel.Memory.PushFree` | kalloc.c:67-74 | The page is filled with junk and becomes the head of the list. |
| `Kernel.Memory.Walkpgdir` | vm.c:35-55 | Finds the table of a page, making one if asked and memory allows, entered writable and for the user; the flat map of every directory is unchanged. |
| `Kernel.Memory.MapPage` | vm.c:69-73 | One entry of the flat map is set; fails exactly without memory for a table, and the remap panic happens exactly on a present entry. |
| `Kernel.Memory.UnmapPage` | vm.c:269-276 | The entry is cleared and exactly its page is free again; the panics do not happen. |
| `UserMemory.Deallocuvm` | vm.c:255-279 | With its skip over missing tables it unmaps and frees exactly the present pages of the range, as a page-by-page scan would. |
| `UserMemory.Allocuvm` | vm.c:221-249 | New zeroed pages appear in the range, readable and writable for the user by the rights of both levels, and nothing else changes; on failure every page but page tables is given back, and that happens only when fewer than two free pages per page were there. |
| `UserMemory.Freevm` | vm.c:283-298 | All pages of the directory, its tables and its user part are free again, each once, and no other page changes hands. |
| `UserMemory.Mappages` | vm.c:60-80 | Over any range of kernel addresses each entry is set to the next physical page; it stops exactly at a page that is mapped already, the panic, or when memory runs out. |
| `UserMemory.Setupkvm` | vm.c:118-136 | A directory with exactly the kernel's map, by the rights of both levels closed to the user and writable except for the kernel's text; or 0, with every page where it was, only when few free pages were left. |
| `UserMemory.Copyuvm` | vm.c:315-345 | The child has every page of the parent with equal contents, flags and rights of both levels on another physical page, the parent is unchanged and the panics do not happen; or 0, with every page where it was. |
| `UserMemory.Growproc` | proc.c:161-178 | Exactly the pages below the size stay present, unless the size shrinks from nonzero to zero: then the pages are gone and the size is not. |
| `VmSetup.KmapDone` | vm.c:110-134 | Each entry of kmap adds its range of the kernel's map. |
| `VmSetup.KernelPteIs` | vm.c:110-115 | The ranges of kmap are pieces of one map: physical memory at KERNBASE, read-only for the text, and the devices at their own addresses. |
| `VmTeardown.FreedIs` | vm.c:283-298 | deallocuvm, the loop over tables and the last kfree together free the pages of the directory and no others. |
| `VmBuild.BuildAbandoned` | vm.c:342-344 | A half-built directory that is freed leaves every page where it was. |
| `VmBuild.CopyStep` | vm.c:325-339 | One turn of copyuvm's loop: one more page copied, all earlier ones still equal to the parent's. |
| `VmBuild.RanOut` | vm.c:118-136 | Building a directory fails only when it has used up all memory with at most its tables and its user pages. |
| `FileSystem.Fs.constructor` | fs.c:172-187 | A sound file system on disk, with its bitmap blocks, is the starting point. |
| `FileSystem.Fs.Balloc` | fs.c:57-79 | The scan of the bitmap bytes finds the first free block, sets its bit and zeroes it, and logs both blocks; fails exactly when no block is free. |
| `FileSystem.Fs.BmapDirect` | fs.c:401-405 | The address of a direct block, allocated if it is the next one; no other byte of any file changes. |
| `FileSystem.Fs.BmapTable` | fs.c:410-412 | The indirect block of the file, allocated if there is none; every block changed is logged. |
| `FileSystem.Fs.BmapEntry` | fs.c:413-418 | The entry behind it, allocated if it is the next one; every block changed is logged. |
| `FileSystem.Fs.BmapIndirect` | fs.c:408-420 | The same behind the indirect block, which is allocated with its first entry; every block changed is logged. |
| `FileSystem.Fs.Bmap` | fs.c:395-423 | The address of a block of the file; nothing changes when it exists. |
| `FileSystem.Fs.WritePiece` | fs.c:525-530 | One turn of writei's loop changes the bytes it copies and no others, and logs every block it changes. |
| `FileSystem.Fs.WriteNext` | fs.c:525-530 | It extends what has been written by the bytes it copies, logs every block it changes, and at most one data block more. |
| `FileSystem.Fs.WriteAll` | fs.c:525-530 | The loop writes all bytes, across the direct and indirect blocks, and logs every block it changes. |
| `FileSystem.Fs.Writei` | fs.c:508-538 | The file becomes its contents with the bytes spliced in, all other files are unchanged, the inode on disk has every new address, no file has a hole; -1 exactly for a bad offset or too large a file; every data block, bitmap block and inode that changes is logged, and what is logged is bounded. |
| `FileSystem.Fs.Readi` | fs.c:479-503 | Returns the stretch of the file, cut at its end, and changes nothing: it never allocates. |
| `FileSystem.Fs.Bfree` | fs.c:82-96 | The bit in its bitmap byte is cleared and the bitmap block logged; the panic happens exactly when it was clear. |
| `FileSystem.Fs.Itrunc` | fs.c:430-458 | The file is empty, exactly its blocks are free, each freed once without a panic, all other files are unchanged, and every bitmap block and inode that changes is logged. |
| `FileSystem.Fs.TruncDirect` | fs.c:437-442 | The loop over direct blocks frees each of them once. |
| `FileSystem.Fs.TruncEntries` | fs.c:447-450 | The loop over the indirect block frees each entry once. |
| `FileSystem.Fs.Filewrite` | file.c:117-156 | A write of any length is one splice; each chunk logs every block it changes and at most seven in all; the offset advances by what was written; -1 exactly for a negative length, an offset past the end or too large a file. |
| `FsState.ChunkLogsFew` | file.c:133-153 | A write of one chunk at any offset logs at most seven distinct blocks, which is within MAXOPBLOCKS. |
| `FsState.ReadBack` | fs.c:480-538 | After a write the bytes written read back, all others are as before, and the size is the larger of the old one and the end of the write. |
| `FsState.SpliceTwice` | file.c:133-153 | Two adjacent splices are one. |
| `FsState.WriteDone` | fs.c:533-536 | iupdate runs only when the size grows, and that is enough: without growth bmap allocated nothing. |
| `FsState.WriteContents` | fs.c:508-538 | Byte by byte, the file after writei is the splice and every other file is unchanged. |
| `FsState.FillDirect` | fs.c:401-405 | A fresh block in the next direct slot: ownership, the bitmap and the absence of holes are kept. |
| `FsState.FillEntryStep` | fs.c:412-417 | The same for an entry of the indirect block. |
| `FsTruncate.TruncDone` | fs.c:437-457 | All steps of itrunc together give back exactly the blocks of the file. |
| `FsTruncate.DirectStep` | fs.c:437-442 | The next direct block is in use and owned by that slot alone when bfree meets it. |
| `FsTruncate.EntryStep` | fs.c:447-450 | So is the next entry of the indirect block. |
| `Blocks.FillAddr` | fs.c:401-411 | Filling one slot of an inode leaves every other reference to a block as it was, and the new block has one owner. |
| `Blocks.FillEntry` | fs.c:412-417 | The same for an entry of an indirect block. |
| `Blocks.WordAfterPut` | fs.c:413-415 | Storing a word in an indirect block is read back, and the other words are unchanged. |
| `Bitmap.MarkUsed` | fs.c:67-69 | Setting or clearing a bit in a byte of a bitmap block changes the state of that one block of the disk. |
| `Bitmap.UsedIs` | fs.c:65-68 | The byte and mask that balloc and bfree test are those of the block. |
| `Bitmap.FirstUsed` | mkfs.c:237-251 | The bitmap mkfs writes has exactly the first bits set. |
| `Bitmap.FirstUsedIs` | mkfs.c:237-251 | Read as a map of the whole disk, it says that the blocks below the counter are in use and no others. |
| `Mkfs.Image.constructor` | mkfs.c:93-115 | The computed superblock, zeroed inodes and bitmap, and free blocks after the metadata: a sound, empty file system. |
| `Mkfs.RegionsApart` | mkfs.c:94-103 | Log, inode blocks, bitmap and data follow each other; every inode has its block inside the inode region and every block its bit inside the bitmap. |
| `Mkfs.Image.DirectBlock` | mkfs.c:271-275 | The block to append to, taken from the counter if it is the next direct one. |
| `Mkfs.Image.IndirectBlock` | mkfs.c:277-285 | The same behind the indirect block. |
| `Mkfs.Image.AppendNext` | mkfs.c:268-294 | One turn of iappend: the bytes it copies are appended and the rest of the last block stays zero. |
| `Mkfs.Image.IAppend` | mkfs.c:255-297 | The file becomes its contents followed by the bytes, all other files are unchanged, and blocks below the counter are exactly those in use. |
| `Mkfs.Image.IAlloc` | mkfs.c:223-235 | The next inode number, with an empty inode of the given type and link count 1. |
| `MkfsMain.AddFile` | mkfs.c:145-153 | The file holds the chunks read, concatenated, and the root directory has one entry more. |
| `MkfsMain.Build` | mkfs.c:67-168 | The image is sound exactly when the root directory does not end on a block boundary, always so for fewer than 256 inodes; then every file has the given contents and the root the given entries, padded with free ones; and the bitmap written last says exactly which blocks are in use. |
| `MkfsMain.Populate` | mkfs.c:117-163 | The same for everything that main writes before the bitmap. |
| `MkfsMain.Mount` | fs.c:172-187 | The kernel that reads the image, bitmap bytes included, starts in the state mkfs built, and that state is valid. |
| `MkfsMain.ShippedLog` | mkfs.c:25 | With the sizes mkfs is built with, the log is crash safe; but some run has an operation refused within its reservation, and some run a commit that halts for want of a buffer. |
| `MkfsMain.RootSize` | mkfs.c:158-163 | Rounding the root's size up leaves the image sound exactly when the size was not a multiple of the block size. |
| `MkfsMain.RootPadded` | mkfs.c:158-163 | When it is sound, the padding of the root directory is zero. |
| `MkfsRoot.DirentReads` | mkfs.c:147-150 | An entry that mkfs writes reads back as its inode number, low byte first, and its name, cut to DIRSIZ bytes. |
| `MkfsRoot.RootReads` | mkfs.c:120-150 | The root's bytes read as a directory without duplicate names in which each given name, and each dot, is found with its inode, for names that differ in their first DIRSIZ bytes. |
| `MkfsRoot.RootFinds` | mkfs.c:67-168 | So in the image that main leaves: the i-th name given finds inode i + 2, and the dots find the root. |
| `Names.Strncmp` | string.c:58-66 | Zero exactly when the two names, up to NUL or n bytes, are equal. |
| `Names.Strncpy` | string.c:68-79 | The field holds the name, padded with NULs, and reads as the same name. |
| `Names.CanonOfPadded` | string.c:68-79 | A padded name reads back. |
| `Names.Skipelem` | fs.c:635-658 | Cuts the first element off a path: the elements are that one and those of the rest; none exactly when there is none; the rest is empty exactly when it was the last. |
| `Names.OneElement` | fs.c:623-634 | Text without a slash is one path element, cut to DIRSIZ bytes. |
| `Names.SlashBetween` | fs.c:623-634 | The elements of two texts with a slash between are those of the one and then those of the other; so only slashes separate, any number of them. |
| `NameCache.Cache.constructor` | namecache.c:26-42 | All entries are invalid. |
| `NameCache.Cache.Lookup` | namecache.c:46-81 | The inode cached for the name, 0 if none; the cached links are unchanged; the counters of lookups, hits and misses, and the entry's own, count. |
| `NameCache.Cache.Add` | namecache.c:84-121 | The link of the name is updated, or takes the next slot. |
| `NameCache.Cache.Invalidate` | namecache.c:124-145 | Exactly the links from or to the inode are gone. |
| `NameCache.Cache.Clear` | namecache.c:148-162 | No link is left. |
| `NameCache.Cache.Search` | namecache.c:58-75 | The loop finds the first valid entry for the name. |
| `NameCache.PutUnique` | namecache.c:84-121 | No two entries are for one name. |
| `NameCache.PutFinds` | namecache.c:84-121 | What was added is found, and nothing else is found that was not there. |
| `Directory.CacheAgrees` | fs.c:551-586 | A lookup through the cache finds the inode that the plain scan of the directory finds. |
| `Directory.RunAgrees` | fs.c:551-618 | In every state of every run of lookups, links, unlinks, new directories and freed inodes, a lookup through the cache finds what the plain scan finds, as long as no directory was freed with a link under it in the cache, in particular if no removed directory was used. |
| `Directory.RunKeepsBase` | sysfile.c:186-288 | In every state of every run, whatever is freed when, cache keys are unique and names in a directory are unique. |
| `Directory.RunKeepsInv` | sysfile.c:186-288 | In every such state every cached link is an entry of its directory. |
| `Directory.RunUnblocked` | sysfile.c:274-280 | In such a run, as long as no directory was freed with a link under it in the cache, no new directory is refused its dots. |
| `Directory.LiveIsTidy` | fs.c:362-368 | In a run that looks up and adds no name in a removed directory, none is freed with a link under it in the cache. |
| `Directory.AddKeeps` | fs.c:573-579 | Caching what a scan found keeps cache and directories in agreement. |
| `Directory.LookupKeeps` | fs.c:551-583 | dirlookup keeps cache keys and names unique, whatever the cache says, and keeps the cache in agreement if it was. |
| `Directory.LinkKeeps` | fs.c:602-613 | So does adding an entry to a directory. |
| `Directory.UnlinkKeeps` | sysfile.c:220-225 | So does unlink, on the hit path and on the miss path; unique keys and names are kept also where the cache is wrong. |
| `Directory.NewDirKeeps` | sysfile.c:265-280 | So does a new directory. |
| `Directory.FreeKeeps` | fs.c:362-368 | Freeing a directory inode keeps cache keys and names unique, and leaves every cached link an entry of its directory exactly when the cache holds no link under it. |
| `Directory.FreeAgrees` | fs.c:362-368 | When the number of a directory inode goes to a new directory, lookups through the cache find there what the scan finds, for every name, exactly when the cache holds no link under it; for every state of the cache. |
| `Directory.StaleLink` | fs.c:362-368 | A lookup in a removed directory leaves a link that is wrong once the inode number is reused. |
| `Directory.StaleDots` | fs.c:362-368 | After a lookup of ".." in any removed directory that was not cached, and the freeing of its inode, the next directory with that number is refused its dots. |
| `Directory.LeavingBlocksDots` | sysfile.c:274-280 | A run that ends so: unlink of the current directory, chdir to "..", and a new directory under the freed inode number. |
| `Directory.UnlinkRemoves` | sysfile.c:209-225 | unlink takes the name out of the directory exactly when the cache missed or the entry was the first of the directory. |
| `Directory.UnlinkMisses` | sysfile.c:209-225 | A root directory with one cached file: unlink clears the entry "." and leaves the file's. |
| `Directory.InsertedIs` | fs.c:589-618 | dirlink adds the name, at the first free entry or the end, and changes no other; entries in use stay where they are, and the directory grows only without a free entry. |
| `Directory.Namespace.constructor` | namecache.c:26-42 | At boot the cache is empty and agrees with the directories on disk. |
| `Directory.Namespace.Dirlookup` | fs.c:551-586 | For every state of the cache: the cached inode, else that of the plain scan, which is then cached; in a cache that agrees always that of the plain scan.  The entry's offset on a miss and 0 on a hit. |
| `Directory.Namespace.ScanDir` | fs.c:568-583 | The loop finds the entry of the name. |
| `Directory.Namespace.Dirlink` | fs.c:589-618 | For every state of the cache: refused exactly when dirlookup finds the name; otherwise the name, which was not there, is added and no other changes. |
| `Directory.Namespace.InsertAt` | fs.c:603-613 | The loop finds the first free entry. |
| `Directory.Namespace.IsDirEmpty` | sysfile.c:170-183 | True exactly when no entry after the first two is in use. |
| `Directory.EmptyMeans` | sysfile.c:170-183 | A directory that begins with its dots passes isdirempty exactly if it has no other name. |
| `Directory.Namespace.Unlink` | sysfile.c:203-236 | For every state of the cache: refused exactly for dots, a name dirlookup does not find or a directory that is not empty; otherwise one entry is cleared, the scanned one on a cache miss and the first one on a hit, and no link under either inode stays cached. |
| `Directory.Namespace.Iput` | fs.c:354-375 | The inode is freed exactly with the last reference to a valid directory of link count 0; a cache in agreement stays so exactly if it holds no link under it. |
| `Directory.Namespace.Create` | sysfile.c:246-288 | For every state of the cache: the inode dirlookup finds, or a new one under the name with, for a directory, its two dots; it panics with "create dots" exactly if it makes a directory and the cache holds a link for ".", or one for ".." outside the slot to be replaced next, under the new inode number; never if the cache agrees, and never with "create: dirlink". |
| `Directory.Namespace.MakeDots` | sysfile.c:274-280 | "." and ".." of a new directory, refused exactly by such links. |
| `Directory.Namespace.Namex` | fs.c:664-697 | For every state of the cache: where the lookups lead, each through the cache as the ones before left it; with a cache that agrees that is where a walk by plain scans leads, or its parent and the last element. |
| `Directory.CachedWalkAgrees` | fs.c:665-710 | In a cache that agrees, the walk through the cache leads where the plain scans do, for the whole path and for the parent. |
| `Directory.PathStarts` | fs.c:669-672 | Where an absolute path leads does not depend on the current directory, nor a relative one on the root. |
| `Directory.ParentThenLast` | fs.c:665-710 | The parent walk and one more lookup are the whole walk. |
| `Shell.Gettoken` | sh.c:265-308 | The cursor moves forward to a character that is no white space, and a word token is a maximal run of word characters. |
| `Shell.ParseCmd` | sh.c:327-342 | Defined for every line; success means that all of it was consumed.  ShellParse.ParsesExactly says when and with what. |
| `ShellParse.ParsesExactly` | sh.c:265-446 | For every line: the parser makes the tree t exactly if the tokens of the line denote t in the shell's grammar, with > and >> both output, a pipe binding tighter than &, & tighter than ;, and at most nine words to a command. |
| `ShellParse.LineSound` | sh.c:344-359 | What parseline has read, from any cursor, denotes the tree it returns. |
| `ShellParse.LineComplete` | sh.c:344-359 | Wherever tokens that denote a tree are followed by the end or a closing parenthesis, parseline returns that tree and stops behind them. |
| `ShellParse.ExecComplete` | sh.c:400-446 | The same for a command or block with its redirections. |
| `ShellParse.RedirsComplete` | sh.c:374-397 | The same for a list of redirections. |
| `ShellParse.OneTree` | sh.c:265-446 | A line denotes at most one tree, and lines with the same tokens the same one. |
| `ShellGrammar.TokenTaken` | sh.c:265-308 | gettoken takes the first of the tokens of what is left of the line, each as long as it can be, and none exactly at the end. |
| `ShellGrammar.TokenPeeked` | sh.c:310-320 | peek is true exactly if the first of the tokens left begins with one of the characters. |
| `ShellGrammar.SpaceBetween` | sh.c:262 | The tokens of two texts with white space between are those of the one and then those of the other. |
| `ShellTokens.CmdParsed` | sh.c:328-446 | Every word of a parsed tree is a word of the line, at most nine to a command. |
| `ShellTokens.Nulterminate` | sh.c:449-493 | NULs are written behind the words of the tree and nowhere else. |
| `ShellTokens.TerminationIsSafe` | sh.c:449-493 | After them every word of the tree is the C string it was parsed as. |
| `ShellPlaces.WordsApart` | sh.c:415-446 | Two words of a parsed line have a character between them that belongs to neither. |
| `ShellPlaces.LinePlaced` | sh.c:344-359 | The words of a parsed piece lie inside it and do not overlap. |
| `ShellRoundTrip.RoundTrip` | sh.c:265-446 | A line with the tokens of a printed tree, parentheses where precedence needs them and in whatever white space, parses to the tree. |
| `ShellRoundTrip.Printed` | sh.c:265-446 | Every tree has such a line. |
| `ShellRoundTrip.PrintDenotes` | sh.c:344-446 | Printed at each level of precedence, a tree is what the tokens denote there. |
| `ShellRoundTrip.Reparse` | sh.c:265-446 | Whatever a line parses to can be printed and parsed to the same tree. |
| `PipeRing.CountersTell` | pipe.c:85-114 | The comparisons of the wrapped counters are true exactly when the pipe is full, and empty; their difference is the number of bytes in it. |
| `PipeRing.DepositKeeps` | pipe.c:93 | A byte deposited in the ring overwrites none that has not been read. |
| `PipeRing.TakeKeeps` | pipe.c:116 | The byte taken is the oldest not yet read. |
| `PipeRing.Stream` | pipe.c:59-121 | In every run what has been read is a prefix of what has been written, the ring holds the rest, and neither is taken back. |
| `PipeRing.Ring.constructor` | pipe.c:33-36 | An empty pipe with both ends open. |
| `PipeRing.Ring.Write` | pipe.c:78-98 | Deposits bytes in order, as many as there is room for; refused exactly when bytes are left with the read end closed or the process killed; it makes the pipe readable without waking the readers exactly when the pipe was empty, more than PIPESIZE bytes are to be written, and the read end is closed or the process killed. |
| `PipeRing.Ring.Read` | pipe.c:100-121 | Returns the oldest bytes, as many as there are and are asked for; a positive-length read returns none only when the pipe is empty and the write end closed; writers that could go on are woken. |
| `PipeRing.Ring.Close` | pipe.c:59-75 | The page is freed exactly when both ends are closed; whoever could go on is woken. |
| `Grep.Match` | grep.c:72-82 | True exactly when a piece of the text is in the language of the pattern, at the front for ^ and at the end for $. |
| `Grep.Matchhere` | grep.c:85-96 | True exactly when a beginning of the text is in the language, all of it for a final $. |
| `Grep.Matchstar` | grep.c:99-106 | True exactly when some number of fitting characters and then a match of the rest begin the text. |
| `Grep.HereStar` | grep.c:89-90 | What a starred character means. |
| `Grep.HereOne` | grep.c:93-94 | What a plain character means. |
| `Grep.PlainOccurs` | grep.c:72-82 | A pattern without special characters matches exactly the texts it occurs in, and behind ^ exactly those that begin with it. |
| `Grep.AnyThenMany` | grep.c:85-96 | A dot is any one character, and c*$ matches exactly texts of nothing but c. |

## Left out

- Port I/O, interrupts, boot code and assembly (ide.c, lapic.c, ioapic.c, uart.c, kbd.c, mp.c, bootmain.c): hardware; a disk transfer is one step, as in memide.c, and does not fail.
- Memory ordering and the register layout of swtch: steps are sequentially consistent and a context switch is abstract.
- exec.c, syscall.c, sysproc.c, trap.c and console.c: glue, user pointers and I/O.
- users.c, perm.h, sys_chmod, sys_chown and the permission tests of sys_open: small table scans with no deep property.
- iget, ilock, idup and the reference counts of the inode cache; filealloc, filedup and fileclose; sys_link and link counts: they would add easy members, and on the cache-hit path of unlink the link count is not kept by the code.
- pushcli, popcli and the cpu field of spin-locks: interrupts are not modelled.
- inituvm, loaduvm, clearpteu, uva2ka and copyout: single-entry or copying wrappers over what is modelled.
- The read loop of grep and the execution of parsed shell commands: stream I/O.
- namecache_stats and the counters behind it: the counters are kept, their printing is not.
- Umalloc.Heap.Malloc: sbrk's answer is a parameter that lies above everything it granted before; where sbrk would be asked for a wrong amount, which Umalloc.RequestHonoured bounds, the model stops.
- ProcTable.PTable.Allocproc: pids are unbounded integers, so nextpid does not wrap.
- FileSystem.Fs.constructor: iinit's reading of the superblock is that of MkfsMain.Mount; a disk that is not sound is not modelled.
- FileSystem.Fs.Filewrite: one writer at a time; between two chunks no other process writes the file.
- FileSystem.Fs.Writei: device inodes (T_DEV), which call a driver, are not modelled; after the out-of-blocks panic nothing is promised but that no block is free.
- FileSystem.Fs.Readi: device inodes (T_DEV), which call a driver, are not modelled.
- Mkfs.Image.IAppend: mkfs does not notice when it runs out of blocks or inodes; the model stops there.
- MkfsMain.Build: the names are those after a leading underscore has been dropped.
- Mkfs.Image.constructor: the superblock is a record; its bytes in block 1 are not modelled.
- Directory.Namespace.Dirlink: directories are unbounded sequences of entries; the panic when writei fails is not modelled.
- Directory.Namespace.Unlink: link counts and inode types other than "directory" are not modelled, so neither are the panics for an inode without a type or with link count 0.
- Directory.Namespace.Create: which existing inode types are acceptable is left to the caller, and the inode number of ialloc is a parameter.
- UserMemory.Mappages: ranges of kernel addresses only, and an aligned pa; the kernel maps user pages one at a time, which is Kernel.Memory.MapPage.
- LogCode.Log.Commit: it waits for nobody, so it requires that no other process holds a buffer; runs in which others do are those of BufferState.
- ShellParse.ParsesExactly: it says which lines are refused, not with which of the messages.
- Shell.ParseCmd: the length of the input buffer (100 bytes) and gets are not modelled.
- PipeRing.Ring.Write: a turn with the lock ends where the process would sleep; what sleeping and waking do is in SleepWakeup.
