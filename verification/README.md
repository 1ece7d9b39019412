# xv6 in Dafny

A model of the parts of xv6-riscv whose correctness is hardest to see from the code, with proofs that they do what the
system promises. `dafny verify dfyconfig.toml` checks the whole project.

| file | what it models |
|---|---|
| Bytes | disk blocks, bytes and little-endian words |
| RedoLog | the log as a list of block writes: commit, recovery and crashes between any two writes (kernel/log.c) |
| LogDriver | the code of kernel/log.c over a buffer cache and a disk that records its writes |
| LogProtocol | every interleaving of begin_op, buffer changes with and without log_write, end_op, the writes of a commit, evictions, crashes and recoveries |
| BufferCache | the buffer cache with its doubly linked list (kernel/bio.c) |
| Inodes, FileSystem | the free map, block maps, readi, writei, itrunc and filewrite (kernel/fs.c, kernel/file.c) |
| PageTable, AddressSpace, UserMemory | Sv39 page tables, the page allocator and user memory (kernel/vm.c, kernel/kalloc.c, kernel/proc.c) |
| Scheduling | processes, CPUs, fork, exit, wait, sleep, wakeup and swtch (kernel/proc.c) |
| SleepLock, Pipe | the two users of sleep and wakeup with state of their own (kernel/sleeplock.c, kernel/pipe.c) |
| Virtio | the disk driver and its device, sharing descriptors and rings (kernel/virtio_disk.c) |
| DiskWaiters | threads in that driver: who sleeps for descriptors and for requests, and who wakes them |
| Umalloc | malloc and free (user/umalloc.c) |
| DirectoryTree, Fsck | the file-system checker (docs/xv6-tutorial/resources/recovery/fsck.py), against the kernel's own recovery and invariants |
| ShellParser | the shell's parser, against a grammar, and nulterminate in place (user/sh.c) |
| Grep | the matcher, against a declarative meaning, and the buffered line loop (user/grep.c) |

How the parts fit. The disk is a sequence of blocks, and a crash keeps a prefix of the writes issued. `RedoLog` proves
that a commit interrupted anywhere, then recovered with any number of further crashes, leaves all of it or none.
`LogDriver.Log.Commit` proves that the code issues exactly those writes. `LogProtocol` puts many processes on top: in
every run the recoverable disk is the logged writes of whole operations, but for buffers changed without log_write
(below). `FileSystem` bounds what one operation logs, and shows that allocation, writing and truncation keep one owner
per block, an exact free map and every other file's bytes.
`Fsck` proves that the checker calls an image clean exactly when the kernel's recovery makes it a disk with that same
invariant, no blocks past a file's size, one directory tree and exact link counts.

A page-table tree is related to a flat map from page to entry, and all of physical memory to one owner per page. Every
operation of kernel/vm.c is stated on the flat map and on what an address space reads: lazy allocation, eager growth and
the failure paths are invisible there, and destroying an address space frees exactly its pages.

`Scheduling`, `SleepLock`, `Pipe`, `Virtio`, `DiskWaiters` and `LogProtocol` are state machines whose steps are the
code between two points where another CPU or the device can be seen. Their results hold in every state of every run, for
any number of CPUs, processes and threads. Lost wakeups are stated as: while a thread sleeps and the lock is free, what
it waits for has not happened yet.

Three promises turned out not to hold of the code. The code is kept as it is, with the exact condition proved:

- pipewrite that finds itself killed, or its reader gone, after storing bytes returns without a wakeup
  (kernel/pipe.c:84-87). `Pipe.OnlyGivingUpStrands` shows that this is the only way a reader can be left asleep with
  bytes to read, in any run, and `Pipe.StrandedReader` is such a run.
- writei that cannot read its source to the end of a block has changed the block all the same, and neither counts nor
  logs the bytes (kernel/fs.c:546-549). `FileSystem.WroteExactly` gives the exact condition, on the arguments and the
  old file, and `FileSystem.Volume.TornWrite` the case.
- Such a buffer, changed and released without log_write, reaches the disk if a commit finds its block in the log.
  `LogProtocol.CommitIsLogged` says exactly when a commit makes the logged writes and nothing else durable,
  `LogProtocol.StrayFrom` and `LogProtocol.NothingStrays` that nothing else can make recovery differ from them, and
  `LogProtocol.TornRun` gives a run that differs for every disk and block.

Three details are kept as the code has them. log_write panics on a full log even for a block already in it
(kernel/log.c:221-222). itrunc clears the entries of a freed indirect block in no buffer, so that block keeps its old
words while it is free. And the checker asks for more than the kernel promises: a write that fails after bmap has
allocated a block leaves that block past the file's size, which the kernel's invariant allows and the checker reports.

## Model

| member | source | states |
|---|---|---|
| Bytes.WordOfSetWord | kernel/log.c:87-115 | storing a 32-bit little-endian word of a block changes that word and no other |
| RedoLog.HeadRoundTrip | kernel/log.c:86-115 | read_head gets back exactly the count and block numbers write_head stored, for every header of at most LOGBLOCKS entries |
| RedoLog.ApplyLogWrites | kernel/log.c:178-192 | after any k writes of write_log the first k modified blocks lie in order in the log area, and header and home blocks are as before |
| RedoLog.ApplyAgree | kernel/log.c:65-84 | replaying a redo list erases every difference between two disks at the blocks it writes |
| RedoLog.RecoveryCrash | kernel/log.c:65-84 | a crash after any number of writes of recovery, followed by recovery from the start, ends on the same disk |
| RedoLog.ClearedIsFixed | kernel/log.c:117-124 | recovery leaves an empty log, on which recovery again changes nothing |
| RedoLog.RepeatedCrashes | kernel/log.c:117-124 | any number of crashes during recovery ends on the disk one undisturbed recovery gives |
| RedoLog.CommittedTail | kernel/log.c:194-204 | after the nonzero header write the rest of commit is, write for write, a recovery |
| RedoLog.CommitAtomic | kernel/log.c:178-204 | a crash after any k writes of commit recovers all-old home blocks before the header write and all-new ones from it on |
| RedoLog.CommitPastHeader | kernel/log.c:196-203 | past the header write, the disk is a partly recovered committed disk |
| RedoLog.EmptyLogRecovers | kernel/log.c:117-124 | recovering with an empty log changes no home block |
| RedoLog.CommitThenCrashes | kernel/log.c:66-204 | crash anywhere in commit, then crash any number of times in recovery: the home blocks are exactly all-old or all-new, all-new precisely when the nonzero header had reached the disk |
| RedoLog.InstalledBlocks | kernel/log.c:65-84 | with distinct targets every logged block reaches its home and no other block changes |
| LogDriver.Absorb | kernel/log.c:226-234 | log absorption: after log_write(b) the header names b, still names everything it named, and names nothing twice |
| LogDriver.Log.ReadHead | kernel/log.c:86-98 | the in-memory header becomes the on-disk one; no disk write |
| LogDriver.Log.WriteHead | kernel/log.c:100-115 | exactly one disk write, of the header block with the in-memory entries |
| LogDriver.Log.WriteLog | kernel/log.c:178-192 | the disk writes are exactly LogWrites of the logged blocks, whatever other buffers have been modified; the cache stays coherent, the logged blocks unchanged and the log area holds them |
| LogDriver.Log.InstallTrans | kernel/log.c:65-84 | the disk writes are exactly InstallWrites in header order; buffers are unpinned unless recovering |
| LogDriver.Log.RecoverFromLog | kernel/log.c:117-124 | the disk becomes Recover of the crashed disk and the in-memory header is empty |
| LogDriver.Log.CommitRecord | kernel/log.c:196-198 | write_log then write_head: the first half of the commit write list |
| LogDriver.Log.InstallAndErase | kernel/log.c:199-202 | install_trans then an empty header: the second half |
| LogDriver.Log.Commit | kernel/log.c:194-204 | the disk writes of a commit are exactly CommitWrites, whatever buffers were modified without log_write, so RedoLog.CommitThenCrashes applies to it; afterwards the log is empty and every logged block is home |
| LogDriver.Log.TryBegin | kernel/log.c:126-143 | begin_op admits exactly when no commit runs and the log has room for one more full operation |
| LogDriver.Log.LeaveOp | kernel/log.c:145-165 | end_op: the last operation out commits, any other wakes waiters; the panic is exact |
| LogDriver.Log.FinishOp | kernel/log.c:167-176 | the committing process commits and then readmits waiters |
| LogDriver.Log.LogWrite | kernel/log.c:206-236 | log_write appends or absorbs, and panics exactly for a full log (even when it would absorb) or outside an operation |
| LogProtocol.RunInv | kernel/log.c:126-236 | the protocol invariant holds in every state of every interleaving of begin_op, buffer changes, log_write, buffers released without it, end_op, commit writes, buffer fills, evictions, crashes and recoveries |
| LogProtocol.CrashRecovers | kernel/log.c:117-124 | at every moment, crashing and recovering yields the logged writes of the durable prefix of the history, with the blocks that have strayed on top; no operation is open at the end of that prefix |
| LogProtocol.WholeOperations | kernel/log.c:145-204 | in every run a crash at any point recovers the logged writes of whole operations with the strayed blocks on top, and the logged writes alone if and only if each strayed block holds what was logged |
| LogProtocol.StrayFrom | kernel/log.c:178-204 | a block strays only where a commit writes its header while that block is in the log and its buffer holds a change that was never passed to log_write; it strays with that buffer's contents |
| LogProtocol.NothingStrays | kernel/log.c:178-204 | so if no commit of the run finds such a buffer, every crash recovers exactly the logged writes of whole operations |
| LogProtocol.CommitIsLogged | kernel/log.c:194-204 | the header write makes exactly the logged writes durable if and only if, in the state before it, each such buffer and each earlier stray holds what was logged |
| LogProtocol.TornRun | kernel/fs.c:546-549 | for every disk with an empty log, every home block and every other contents, a run that logs the block, changes its buffer again without log_write and commits: the recovered disk is not the logged writes |
| LogProtocol.CommittedIsDurable | kernel/log.c:167-204 | once a commit has finished, everything logged before it survives any crash, again exactly but for the strayed blocks |
| LogProtocol.CommitExclusion | kernel/log.c:145-236 | during a commit no operation is open and none can call log_write; end_op never meets a commit; an operation within its budget never meets a full log; lh.n never exceeds LOGBLOCKS |
| LogProtocol.SleeperHasWaker | kernel/log.c:126-176 | a process asleep in begin_op is never forgotten: an operation is open or a commit runs, and its end wakes it |
| LogProtocol.LogHasRoom | kernel/log.c:126-143 | an operation that has appended fewer than MAXOPBLOCKS blocks always finds room, however many run at once |
| BufferCache.BCache.constructor | kernel/bio.c:35-52 | binit: every buffer once in the list, forward and backward lists the same ring |
| BufferCache.Unlink | kernel/bio.c:127-128 | taking a buffer out of the doubly linked ring keeps both directions the same ring |
| BufferCache.PushFront | kernel/bio.c:129-132 | inserting after the head keeps both directions the same ring |
| BufferCache.MovedRing | kernel/bio.c:125-133 | the six pointer assignments of brelse move the buffer to the front and nothing else |
| BufferCache.SpareBuffer | kernel/bio.c:74-87 | "bget: no buffers" is unreachable while users and pins together are fewer than the buffers |
| BufferCache.BCache.Find | kernel/bio.c:64-72 | the forward scan finds the buffer holding the block exactly when there is one |
| BufferCache.BCache.FindUnused | kernel/bio.c:74-87 | the backward scan returns the least recently released unreferenced buffer, or none when all are in use |
| BufferCache.BCache.Bget | kernel/bio.c:57-88 | a cached block gets its own buffer; otherwise the least recently released unused one, unpinned and unlocked, is retagged and invalid; no two buffers ever hold the same block of a device; None is the panic, exactly when all are in use |
| BufferCache.BCache.Fill | kernel/bio.c:90-102 | an invalid buffer is filled from the disk, a valid one is never overwritten |
| BufferCache.BCache.Brelse | kernel/bio.c:113-136 | the last release puts the buffer first in the list, and the list stays the order of last release; false is the panic; nothing else changes |
| BufferCache.BCache.Relink | kernel/bio.c:127-132 | the list order after the six assignments is the old one with this buffer first |
| BufferCache.BCache.Bpin | kernel/bio.c:138-144 | one more reference, so the buffer cannot be retagged |
| BufferCache.BCache.Bunpin | kernel/bio.c:146-152 | one reference less; order and contents untouched |
| Inodes.MarkedAfter | kernel/fs.c:67-107 | setting or clearing one bit of the free map changes the mark of that block only |
| Inodes.DirectAlloc | kernel/fs.c:412-419 | giving a direct slot a new block keeps one owner per block, the exact free map and every byte of every file |
| Inodes.IndirectAlloc | kernel/fs.c:425-430 | giving an inode an indirect block does too |
| Inodes.EntryAlloc | kernel/fs.c:431-441 | and so does filling an entry of the indirect block |
| Inodes.DataWrite | kernel/fs.c:540-552 | replacing the contents of one file block keeps every owner, mark and address |
| Inodes.DataWriteByte | kernel/fs.c:540-552 | and changes how that block of that file reads, no other byte of any file |
| Inodes.ProgressChunk | kernel/fs.c:540-552 | one turn of writei: the written range grows by exactly the chunk copied |
| Inodes.DirectFree | kernel/fs.c:456-461 | freeing a direct block in itrunc keeps the invariant and all other files |
| Inodes.EntryFree | kernel/fs.c:466-469 | freeing the block of an indirect entry does too |
| Inodes.IndirectFree | kernel/fs.c:471-472 | and so does freeing the emptied indirect block |
| FileSystem.Volume.Balloc | kernel/fs.c:65-90 | the first free block, marked and zeroed; 0 exactly when no block is free; nothing else changes |
| FileSystem.Volume.ScanBitmap | kernel/fs.c:74-87 | one bitmap block: the first clear bit, or none |
| FileSystem.Volume.Claim | kernel/fs.c:78-83 | mark and zero one block |
| FileSystem.Volume.Bfree | kernel/fs.c:92-107 | clears exactly this mark; false exactly when the block was free |
| FileSystem.Format | mkfs/mkfs.c:241-254 | the bitmap marks exactly the blocks in front of the data, and every data block is zeroed |
| FileSystem.Volume.constructor | mkfs/mkfs.c:96-115 | a volume with no files: the invariant holds and every data block is free |
| FileSystem.Volume.Bmap | kernel/fs.c:398-445 | the address of block bn, allocated if missing, 0 when the disk is full; owners stay unique, the free map exact and every file byte unchanged, on success and on running out |
| FileSystem.Volume.BmapIndirect | kernel/fs.c:423-442 | the same for blocks reached through the indirect block, including a half-done allocation |
| FileSystem.Volume.BmapExisting | kernel/fs.c:406-445 | a block the file has is found without allocating |
| FileSystem.Volume.Readi | kernel/fs.c:491-520 | copies out exactly the bytes of the file from off, cut at its size, and nothing when off is past it; -1 exactly when the destination cannot take them all, and then it holds the part that fitted; no block is allocated |
| FileSystem.Volume.ReadLoop | kernel/fs.c:506-518 | the loop copies the bytes asked for, or as many as the destination takes, and says which |
| FileSystem.Volume.ReadBlock | kernel/fs.c:506-518 | one round: the next bytes of the file, at least one, at most to the end of the block |
| FileSystem.Volume.Writei | kernel/fs.c:522-563 | -1 exactly for the two range errors, with nothing changed; otherwise the file is spliced with the bytes copied, its size grows to the bytes counted and no other file changes; it stops short only for lack of space or at the end of what can be read, there at a block boundary; the bytes counted are exactly the change to the file if and only if the write is untorn; the blocks logged are bounded |
| FileSystem.WroteExactly | kernel/fs.c:546-549 | the exact condition, on the arguments and the old file: a write that reports n bytes has changed the file in exactly those, if and only if its source can be read to the end or the readable bytes of its last, partial block already stand in the file |
| FileSystem.Volume.TornWrite | kernel/fs.c:546-549 | for every file of two bytes or more, a write over them whose second byte cannot be read returns 0 and has changed the first |
| FileSystem.Volume.WriteLoop | kernel/fs.c:540-552 | the loop: the bytes copied, how many are counted, why it stopped, and which blocks it may log |
| FileSystem.Volume.CopyChunk | kernel/fs.c:544-551 | one copy: a whole chunk, logged, or the readable part of one, not logged |
| FileSystem.WroteContents | kernel/fs.c:522-563 | stated on byte sequences: the new contents are the old ones with the bytes written over, cut at the new size; every other file reads the same |
| FileSystem.ReadBack | kernel/fs.c:491-563 | reading back from where a write started returns the bytes written |
| FileSystem.WroteTwice | kernel/fs.c:522-563 | two adjacent writes are one write of the concatenation |
| FileSystem.Volume.Itrunc | kernel/fs.c:447-477 | every block the inode owned becomes free and no other; all other files keep their bytes; "freeing free block" is not reached |
| FileSystem.TruncEnd | kernel/fs.c:475-476 | with all addresses gone and size 0 the truncation is complete |
| FileSystem.Volume.Iupdate | kernel/fs.c:227-243 | the stored inode becomes the in-memory one and its block is logged |
| FileSystem.Volume.Filewrite | kernel/file.c:134-179 | over all chunks, the effect of one writei; all bytes written or -1, and -1 only for a range error, an unreadable source or a full disk; the offset advances by the bytes counted |
| FileSystem.WriteBudget | kernel/file.c:148-174 | one filewrite chunk at any offset logs at most 7 distinct blocks when the bitmap is one block |
| PageTable.DistinctSlots | kernel/riscv.h:371-380 | two pages below MAXVA differ in some level of the walk |
| PageTable.LowOwner | kernel/vm.c:98-116 | a walk that reaches level 0 ends in the one table owned by that root and those two indices |
| PageTable.StoreSlot | kernel/vm.c:98-116 | storing in the slot of one page of one root changes what the walk finds there and for no other page of any root |
| PageTable.GrowTree | kernel/vm.c:104-114 | linking a fresh zeroed table keeps every table owned and reached from one place |
| PageTable.GrowKeeps | kernel/vm.c:104-114 | and changes nothing any walk finds |
| PageTable.DropTable | kernel/vm.c:262-280 | an empty table can be freed once its parent entry is cleared |
| PageTable.FreeingChild | kernel/vm.c:268-278 | one turn of freewalk: with the child and all below it gone and its entry cleared, the rest is still a tree |
| PageTable.FreeingDone | kernel/vm.c:262-280 | after the loop, freeing the table itself leaves a tree of everything else and nothing of this one |
| AddressSpace.StoreLeaf | kernel/vm.c:146-213 | the tree after a store stands for the flat map with that one page set or removed |
| AddressSpace.GrowInv | kernel/vm.c:104-114 | taking a page for a table keeps free list, tables and user pages a partition |
| AddressSpace.MapInv | kernel/vm.c:163-173 | mapping a held page keeps the partition and gives the page exactly one mapping |
| AddressSpace.UnmapInv | kernel/vm.c:202-212 | unmapping keeps it too |
| AddressSpace.FaultView | kernel/vm.c:450-475 | allocating an unallocated page with zeros changes no byte any address space reads |
| AddressSpace.StoreView | kernel/vm.c:362-374 | storing into a mapped user page changes exactly that range of that one address space |
| AddressSpace.CopiedView | kernel/vm.c:292-326 | after uvmcopy the child reads what the parent reads at every address below sz, allocated or not |
| AddressSpace.ZeroedView | kernel/vm.c:215-242 | eager growth is invisible to reads, like lazy growth |
| AddressSpace.ShrinkView | kernel/vm.c:244-260 | shrinking makes exactly the dropped pages read as zeros, in this address space only |
| AddressSpace.EmptySpace | kernel/vm.c:262-280 | with no page mapped, no level-0 table holds an entry: the leaf panic of freewalk is unreachable |
| AddressSpace.GoneInv | kernel/vm.c:262-290 | after freewalk every page of the address space is free and the others are untouched |
| AddressSpace.NeverBuilt | kernel/proc.c:174-206 | building an address space and destroying it again gives every page back to its old owner |
| UserMemory.Memory.Kalloc | kernel/kalloc.c:65-82 | the head of the free list, filled with 5s, or 0 exactly when the list is empty |
| UserMemory.Memory.Kfree | kernel/kalloc.c:42-63 | the page goes to the head of the free list |
| UserMemory.Memory.constructor | kernel/kalloc.c:26-40 | kinit: every page of the range is on the free list once and no page has another owner; the invariant holds |
| UserMemory.Memory.AddTable | kernel/vm.c:107-114 | walk allocates and links one zeroed table, or finds no page |
| UserMemory.Memory.Walk | kernel/vm.c:86-116 | the slot of the page; allocation changes no mapping of any address space; without it nothing changes and no slot means no mapping |
| UserMemory.Memory.MapPage | kernel/vm.c:163-170 | one page mapped, or out of memory with the flat map unchanged |
| UserMemory.Memory.Mappages | kernel/vm.c:141-175 | exactly the requested pages are mapped, in order; on failure exactly a prefix and the free list is empty |
| AddressSpace.MappedRangeLook | kernel/vm.c:141-175 | the flat map after mappages, entry by entry |
| UserMemory.Memory.UnmapPage | kernel/vm.c:202-212 | one page removed from the flat map, freed when asked |
| UserMemory.Memory.Uvmunmap | kernel/vm.c:190-213 | exactly the pages of the range leave the flat map; their memory is freed, or kept, as asked |
| UserMemory.Memory.MapFresh | kernel/vm.c:228-239 | the shared kalloc, fill, mappages sequence: a fresh page mapped with this content, or the page given back and nothing mapped |
| UserMemory.Memory.Uvmdealloc | kernel/vm.c:244-260 | exactly the whole pages between the two sizes are freed |
| UserMemory.Memory.Uvmalloc | kernel/vm.c:215-242 | new zeroed pages exactly in the range, or on any out-of-memory path every mapping and content as before, with no page outside this address space touched |
| UserMemory.Memory.Lookup | kernel/vm.c:98-116 | the entry of the flat map |
| UserMemory.Memory.Uvmcopy | kernel/vm.c:292-326 | the child maps what the parent maps, with the same flags, in fresh pages with the same contents; on failure every mapping and content as before |
| UserMemory.Memory.Walkaddr | kernel/vm.c:118-139 | the page of a valid user mapping, else 0 |
| UserMemory.Memory.Vmfault | kernel/vm.c:450-488 | a zeroed writable page below sz, or 0 only because the address is past sz, is mapped already, or memory ran out; no byte of any address space reads differently |
| UserMemory.Memory.UserPage | kernel/vm.c:355-360 | the page copyin and copyout go on with, faulted in when needed |
| UserMemory.Memory.Copyout | kernel/vm.c:341-377 | exactly a prefix of the bytes is written, in this address space only; it stops short only at a refused page or out of memory |
| UserMemory.Memory.CopyoutChunk | kernel/vm.c:350-375 | one turn of that loop: at most up to the end of the page |
| UserMemory.Memory.Copyin | kernel/vm.c:379-405 | returns what the address space reads there, changing no byte, under the same stopping rule |
| UserMemory.Memory.Uvmcreate | kernel/vm.c:177-188 | an empty address space, or 0 |
| UserMemory.Memory.Freewalk | kernel/vm.c:262-280 | frees the table and all tables below it, recursively, and nothing else |
| UserMemory.Memory.Uvmfree | kernel/vm.c:282-290 | every page of the address space becomes free, every other page keeps its owner |
| UserMemory.Memory.ProcPagetable | kernel/proc.c:174-206 | trampoline and trapframe mapped and nothing else; on either out-of-memory path every page has its old owner |
| UserMemory.Memory.ProcFreepagetable | kernel/proc.c:208-216 | with all user pages below sz, returns every page the address space owns and nothing else |
| UserMemory.Memory.Sbrk | kernel/proc.c:234-256 | reads change only by dropped pages reading as zeros; failure changes nothing; a shrink past zero wraps and does nothing; eager growth maps every new page; lazy growth maps none and fails exactly above TRAPFRAME |
| Scheduling.MildControl | kernel/proc.c:258-587 | a step that changes only its own thread, one process it has locked and wait_lock keeps who-runs-where and who-holds-what |
| Scheduling.DispatchControl | kernel/proc.c:424-490 | so does every dispatch step: a scheduler and the thread it switches to or from |
| Scheduling.SchedDispatch | kernel/proc.c:424-490 | each scheduler step and sched() is a dispatch step |
| Scheduling.ForkMild | kernel/proc.c:258-306 | each step of kfork changes only its own thread, its child while locked, and wait_lock while held, including its failures |
| Scheduling.ExitMild | kernel/proc.c:308-366 | so does each step of reparent and kexit |
| Scheduling.WaitMild | kernel/proc.c:368-415 | so does each step of kwait |
| Scheduling.SwitchMild | kernel/proc.c:492-569 | so does each step of yield, of sleep and of leaving sched() |
| Scheduling.ForkStep | kernel/proc.c:258-306 | kfork keeps: parents are alive, forks own their child, nobody waits past a zombie |
| Scheduling.ExitStep | kernel/proc.c:308-366 | kexit keeps it |
| Scheduling.WaitStep | kernel/proc.c:368-415 | kwait keeps it |
| Scheduling.StepInv | kernel/proc.c:258-611 | every step of every CPU keeps the invariant |
| Scheduling.RunInv | kernel/proc.c:258-611 | so it holds in every state of every interleaving of any number of CPUs and processes |
| Scheduling.RunningOnce | kernel/proc.c:424-490 | a process is c->proc of at most one CPU, and with its lock free it is on one exactly when it is RUNNING |
| Scheduling.ReapSafe | kernel/proc.c:383-400 | kwait frees only a ZOMBIE child that no CPU still runs or is switching away from |
| Scheduling.NoMissedZombie | kernel/proc.c:326-415 | with wait_lock free, a parent asleep in kwait has no ZOMBIE child |
| Scheduling.ParentAlive | kernel/proc.c:308-366 | every published process but init has a parent that is neither ZOMBIE nor UNUSED |
| Scheduling.SchedLocks | kernel/proc.c:465-490 | sched() is entered holding p->lock and no other of these locks; an exited process never returns from it |
| Scheduling.HolderMoves | kernel/proc.c:542-587 | the CPU holding a process lock always has a next step of its own, and one that is not a kill or a wakeup from outside |
| Scheduling.WaitLockMoves | kernel/proc.c:348-415 | the holder of wait_lock has a next step, or the one process lock it wants next is held by another CPU that has one: no cycle of waits among these locks |
| SleepLock.StepInv | kernel/sleeplock.c:21-41 | every step of acquiresleep, releasesleep, sleep and wakeup keeps the invariant |
| SleepLock.RunInv | kernel/sleeplock.c:21-41 | in every interleaving of any number of threads |
| SleepLock.MutualExclusion | kernel/sleeplock.c:21-52 | at most one thread is between acquiresleep and releasesleep, and holdingsleep is true of exactly that one |
| SleepLock.SleeperHasOwner | kernel/sleeplock.c:21-41 | with lk->lk free, a sleeper means the lock is held by a thread that will release it |
| SleepLock.ReleaseWakesAll | kernel/sleeplock.c:33-41 | when a release has finished its wakeups, nobody is asleep on the lock |
| Pipe.Tests | kernel/pipe.c:83-123 | the full and empty tests on wrapped 32-bit counters are exact |
| Pipe.StoreQueue | kernel/pipe.c:91-97 | storing a byte appends it to the queue, in whatever ring slot it lands |
| Pipe.TakeQueue | kernel/pipe.c:120-130 | taking a byte removes the oldest |
| Pipe.StepInv | kernel/pipe.c:58-134 | every step of pipewrite, piperead, pipeclose, sleep and wakeup keeps the invariant |
| Pipe.RunInv | kernel/pipe.c:58-134 | in every interleaving of any number of threads |
| Pipe.FirstInFirstOut | kernel/pipe.c:76-134 | bytes come out in the order they went in, none lost or repeated, at most PIPESIZE behind, however often the counters wrap |
| Pipe.WriterAsleep | kernel/pipe.c:83-98 | with pi->lock free, a writer asleep means a full pipe with its read end open |
| Pipe.ReaderAsleep | kernel/pipe.c:105-119 | in every run, with pi->lock free a reader asleep means an open write end, and either an empty pipe or bytes that no wakeup has announced |
| Pipe.LeavesUnsaid | kernel/pipe.c:76-103 | a step by which pipewrite leaves its loop leaves unannounced bytes behind exactly when it is the return -1, for a closed read end or a kill, after bytes were stored |
| Pipe.UnsaidFrom | kernel/pipe.c:76-103 | bytes are unannounced only while a writer is in its loop, or since one returned -1 like that with no wakeup of readers in between |
| Pipe.OnlyGivingUpStrands | kernel/pipe.c:84-87 | in every run and at every moment with pi->lock free: a reader asleep with bytes to read is there only because a pipewrite has returned -1 after storing bytes, with no wakeup of readers since |
| Pipe.StrandedReader | kernel/pipe.c:84-87 | a concrete run in which that happens |
| Virtio.AtMostTwo | kernel/virtio_disk.c:198-212 | three chains in flight would need nine descriptors |
| Virtio.RingRoom | kernel/virtio_disk.c:266-276 | so no ring ever holds more than two unconsumed entries |
| Virtio.SubmitInv | kernel/virtio_disk.c:225-280 | queueing a request keeps descriptors partitioned and overwrites no unconsumed ring entry, across index wrap |
| Virtio.FetchInv | kernel/virtio_disk.c:270-280 | the device takes the oldest queued head |
| Virtio.PostInv | kernel/virtio_disk.c:311-313 | the device posts a finished head without overwriting an unseen one |
| Virtio.CompleteInv | kernel/virtio_disk.c:311-323 | what the interrupt handler sees is a posted request with the status the device gave it, and the buffer it clears is the one that issued it |
| Virtio.FinishInv | kernel/virtio_disk.c:287-288 | freeing the chain returns exactly its three descriptors |
| Virtio.RunInv | kernel/virtio_disk.c:155-326 | the invariant holds in every interleaving of driver and device |
| Virtio.DescriptorsPartitioned | kernel/virtio_disk.c:155-212 | in every reachable state each descriptor is free or in exactly one of at most two chains |
| Virtio.DeviceSees | kernel/virtio_disk.c:234-280 | following a queued head, the device finds the header, buffer, direction and status slot of the request that was issued |
| Virtio.Disk.constructor | kernel/virtio_disk.c:61-152 | virtio_disk_init: all descriptors free, both rings empty, and the invariant holds |
| Virtio.Disk.AllocDesc | kernel/virtio_disk.c:154-165 | the first free descriptor, marked, or -1 exactly when none is free |
| Virtio.Disk.FreeDesc | kernel/virtio_disk.c:167-181 | clears and frees one descriptor |
| Virtio.Disk.Alloc3Desc | kernel/virtio_disk.c:198-212 | three distinct descriptors, or, exactly when fewer than three are free, everything as before |
| Virtio.Disk.FreeChain | kernel/virtio_disk.c:183-196 | follows the chain and frees its three descriptors; no panic |
| Virtio.Disk.Begin | kernel/virtio_disk.c:214-280 | with three free descriptors the request is queued as Submit describes, else nothing changes |
| Virtio.Disk.Enqueue | kernel/virtio_disk.c:234-276 | the memory writes that format and publish a request |
| Virtio.Disk.End | kernel/virtio_disk.c:287-290 | frees the finished chain |
| Virtio.Disk.Intr | kernel/virtio_disk.c:293-326 | without a failed request every posted request is marked done and no other; it panics exactly when a posted request has failed; only the buffers of posted requests change |
| DiskWaiters.StepInv | kernel/virtio_disk.c:214-326 | every step of a thread in virtio_disk_rw or virtio_disk_intr, with its sleeps and wakeups, keeps the invariant that ties threads to chains and sleepers to what they wait for |
| DiskWaiters.WorksInv | kernel/virtio_disk.c:270-313 | so does every step of the device |
| DiskWaiters.RunInv | kernel/virtio_disk.c:214-326 | in every interleaving of any number of threads with the device |
| DiskWaiters.AllocProceeds | kernel/virtio_disk.c:225-280 | a buffer has no request in flight until its thread queues one, so any three free descriptors let that thread go on |
| DiskWaiters.WaitProceeds | kernel/virtio_disk.c:282-291 | a thread that finds b->disk clear has its own request done and its own chain to free |
| DiskWaiters.RequestPending | kernel/virtio_disk.c:282-285 | with vdisk_lock free, a thread asleep on its buffer has a request that is queued, being worked on or posted and not yet handled, and b->disk is set |
| DiskWaiters.DescriptorsTaken | kernel/virtio_disk.c:226-232 | with vdisk_lock free, a thread asleep on &disk.free[0] finds fewer than three descriptors free, and two other threads have requests in flight, whose ends wake it |
| Umalloc.InsertedSorted | user/umalloc.c:33-43 | inserting with coalescing keeps the list sorted with no two blocks touching |
| Umalloc.InsertedUnits | user/umalloc.c:33-43 | and adds exactly the units of the freed block |
| Umalloc.LinkedRing | user/umalloc.c:33-43 | the pointer updates of free make the headers that list, as one circle |
| Umalloc.SearchStops | user/umalloc.c:30-32 | the search of free stops exactly at the block below the freed one, or the last block |
| Umalloc.CutHeap | user/umalloc.c:75-83 | cutting units off a block keeps ring, cover and live blocks |
| Umalloc.BlocksApart | user/umalloc.c:24-90 | live blocks share no unit with each other or with a free block |
| Umalloc.MaximalRuns | user/umalloc.c:33-43 | each listed block is a maximal run of free units |
| Umalloc.SizesAddUp | user/umalloc.c:24-90 | the sizes in the headers of the free list and of the live blocks add up to the number of units obtained from sbrk |
| Umalloc.BigRun | user/umalloc.c:46-61 | a fresh region lies in one listed block, so the search after morecore succeeds |
| Umalloc.Heap.constructor | user/umalloc.c:21-22 | an empty heap, before the first malloc |
| Umalloc.Heap.Free | user/umalloc.c:24-44 | terminates for every live block; exactly its units become free, no unit appears or disappears, and listed and live sizes add up to the same total |
| Umalloc.Heap.Link | user/umalloc.c:33-43 | the joining half of free |
| Umalloc.Heap.Morecore | user/umalloc.c:46-61 | adds the granted region as free units and leaves a block large enough, or fails with nothing changed |
| Umalloc.Heap.Take | user/umalloc.c:75-84 | the whole block or its tail becomes live |
| Umalloc.Heap.Search | user/umalloc.c:74-89 | the loop: the first block from freep on with enough units, after morecore when it comes round; 0 exactly when none fits and sbrk refuses, and then nothing has changed |
| Umalloc.Heap.Malloc | user/umalloc.c:63-90 | terminates; returns units that were free and are now one new live block of sufficient size, or 0 exactly when no listed block fits and sbrk refuses; the units are the old ones and those sbrk granted, and listed and live sizes add up to their number |
| Fsck.ParseGeometry | docs/xv6-tutorial/resources/recovery/fsck.py:76-100 | accepts exactly the superblocks that lay out log, inodes, free map and data, one after the other, over the whole image |
| Fsck.ParseLog | docs/xv6-tutorial/resources/recovery/fsck.py:103-125 | the replay is made exactly for good logs and equals the kernel recovery byte for byte |
| Fsck.Replay | docs/xv6-tutorial/resources/recovery/fsck.py:120-125 | block by block, then the cleared header |
| Fsck.ParseInodes | docs/xv6-tutorial/resources/recovery/fsck.py:128-145 | the allocated inodes, in order; accepted exactly when types and sizes are sane and the root is a directory |
| Fsck.InodeBlocks | docs/xv6-tutorial/resources/recovery/fsck.py:148-175 | every block an inode names, once per slot; accepted exactly when there are no holes, nothing beyond the size and all blocks are in the data region |
| Fsck.ListBlocks | docs/xv6-tutorial/resources/recovery/fsck.py:149-162 | the list of those blocks, each slot once |
| Fsck.CollectOwners | docs/xv6-tutorial/resources/recovery/fsck.py:211-215 | for each block exactly the inodes and slots that name it, each once |
| Fsck.CheckBitmap | docs/xv6-tutorial/resources/recovery/fsck.py:216-226 | accepted exactly when metadata is marked and each data block is marked if and only if named, by one inode |
| Fsck.CleanInv | docs/xv6-tutorial/resources/recovery/fsck.py:208-226 | a clean block check implies the kernel invariant of the block maps: one owner per block, exact free map, no holes |
| Fsck.CleanTrimmed | docs/xv6-tutorial/resources/recovery/fsck.py:148-175 | and no file owns a block past its size |
| Fsck.KeptClean | docs/xv6-tutorial/resources/recovery/fsck.py:208-226 | conversely, the kernel invariant with no blocks past a size gives no diagnostic on inodes, blocks or free map |
| Fsck.ScanDir | docs/xv6-tutorial/resources/recovery/fsck.py:233-263 | the named entries of a directory, their reference counts, and whether "." and ".." are there; accepted exactly with distinct, nonempty names of allocated inodes, "." naming the directory itself and a whole number of entries |
| Fsck.ScanAll | docs/xv6-tutorial/resources/recovery/fsck.py:228-263 | the same over all directories; accepted exactly when each is |
| Fsck.CheckedLinks | docs/xv6-tutorial/resources/recovery/fsck.py:291-311 | in directories without diagnostics, the last checks on an inode hold exactly when its links are right: ., .. and link count |
| Fsck.InspectView | docs/xv6-tutorial/resources/recovery/fsck.py:208-318 | a view has no diagnostics if and only if it is a consistent file system |
| Fsck.CheckBytes | docs/xv6-tutorial/resources/recovery/fsck.py:321-356 | "clean" if and only if superblock and log are good and the kernel recovery leaves a consistent file system; "raw_clean" if and only if they are and the image itself is one; without a pending log recovery changes no block of it |
| DirectoryTree.VisitSound | docs/xv6-tutorial/resources/recovery/fsck.py:274-290 | one entry of the walk keeps: what is reached hangs from the root, and each directory was named once |
| DirectoryTree.VisitOk | docs/xv6-tutorial/resources/recovery/fsck.py:274-288 | in a tree, no entry the walk comes to draws a diagnostic |
| DirectoryTree.Traverse | docs/xv6-tutorial/resources/recovery/fsck.py:265-290 | the walk terminates; without a diagnostic all it reached has that property, and in a tree there is no diagnostic |
| DirectoryTree.CheckTree | docs/xv6-tutorial/resources/recovery/fsck.py:265-311 | no diagnostic if and only if the directories form one tree from the root and every inode has the right ".", ".." and link count |
| DirectoryTree.OnePath | docs/xv6-tutorial/resources/recovery/fsck.py:265-290 | in such a graph there is exactly one path from the root to each directory |
| ShellParser.GetToken | user/sh.c:271-314 | the next token, its exact extent, and the white space around it; always advances except at the end |
| ShellParser.Peek | user/sh.c:316-326 | skips white space and tests the next character |
| ShellParser.ParseRedir | user/sh.c:386-400 | one redirection: exactly the operator, mode and file name that stand there |
| ShellParser.ParseRedirs | user/sh.c:380-403 | all redirections at this point, in order |
| ShellParser.FirstItem | user/sh.c:432-451 | a run of arguments and redirections, defined by its last, can be read from its first |
| ShellParser.ParseLine | user/sh.c:350-365 | terminates; what it reads it reads as the grammar does, each word once; and whenever the text from here on reads as a line that ends properly, it finds that reading |
| ShellParser.ParseBack | user/sh.c:355-359 | the same for a pipeline and its &s |
| ShellParser.ParsePipe | user/sh.c:367-378 | the same for a pipeline |
| ShellParser.ParseBlock | user/sh.c:405-419 | the same for a parenthesised line and its redirections |
| ShellParser.ParseExec | user/sh.c:421-452 | the same for a command |
| ShellParser.ParseArgs | user/sh.c:432-451 | the same for a simple command, with fewer than MAXARGS arguments |
| ShellParser.ParseCmd | user/sh.c:333-345 | the result is c if and only if the grammar makes c of the whole line, with fewer than MAXARGS arguments per command; c has every word of the line exactly once |
| ShellParser.OneReading | user/sh.c:350-452 | the grammar makes at most one command of a line |
| ShellParser.NulTerminate | user/sh.c:454-499 | the buffer changes exactly at the end positions of the words of the tree |
| ShellParser.WordsReadBack | user/sh.c:454-499 | afterwards every argument and file name reads, as a C string, as its word stood in the line |
| ShellParser.ParseCommand | user/sh.c:333-348 | both together, in place; on a syntax error, exactly when there is no such command, the buffer is unchanged |
| Grep.Match | user/grep.c:70-82 | true exactly when the declarative meaning of the pattern has a match in the text |
| Grep.MatchHere | user/grep.c:84-97 | true exactly when the pattern matches a prefix of the text |
| Grep.MatchStar | user/grep.c:99-108 | true exactly when some number of repetitions leaves a match |
| Grep.Grep | user/grep.c:11-35 | however the input is cut into reads, prints exactly the matching lines in order, up to the first NUL or a line too long for the buffer |
| Grep.Lines | user/grep.c:20-29 | one buffer: prints the matching complete lines and stops at the incomplete tail |

## Left out

- exec, traps, system-call decoding, devices other than the disk, the kernel's own page table and boot: not modelled.
- copyinstr: it does not fault lazy pages in (kernel/vm.c:419-421), so the claims about lazy memory do not cover it.
- ialloc, iget, iput, dirlink, dirlookup, namex, the system calls of kernel/sysfile.c, and mkfs beyond its empty layout: the model starts from inodes and their block maps.
- The on-disk inode format: `FileSystem` keeps the stored inodes as a field, `Fsck` decodes them from bytes.
- Panics that only a caller's mistake reaches (an unaligned or already mapped page, an address past MAXVA, freeing a free page or a page twice) are preconditions; the panics named in the table are modelled and shown unreachable, or reached exactly when stated.
- Spinlocks, interrupts and memory ordering: a lock is held by one CPU, and a critical section of one lock is one step where nothing else can observe its middle. In `Scheduling` acquire, release, state changes and swtch are steps of their own, except where one process lock alone is taken, looked under and dropped.
- In `Scheduling`, sleep on channels other than kwait's, and kkill, are steps of the environment: they keep the invariant, but their own conditions are those of `SleepLock`, `Pipe` and `LogProtocol`.
- Fairness and progress of the scheduler: only deadlock freedom among wait_lock and the process locks is proved.
- Pids, names, open files and exit statuses of processes.
- LogDriver.Log.LogWrite: the full-log panic for an absorbed block is kept as a refusal; the buffer reaching log_write is taken to be in the cache and outside the log area.
- LogDriver.Log.RecoverFromLog: a header that names more than LOGBLOCKS blocks, or blocks outside the disk or inside the log, is excluded; no run of the protocol writes one.
- BufferCache.BCache.Bget: uniqueness is for devices other than 0, which is what binit's zeroed buffers are tagged with.
- FileSystem.WriteBudget: for disks whose free map is one block, as mkfs makes them; with more, each balloc may log another map block.
- FileSystem.Volume.Writei: user memory is modelled by how many bytes from the given address on can be read (for readi, written); which pages those are is the matter of `UserMemory`.
- FileSystem.Volume.Readi: the file has a block for every position below its size, as `Valid` says; holes do not arise from these operations.
- Physical memory is pages of either table entries or bytes; a page table's own bytes are not user data.
- UserMemory.Memory.Vmfault: for the page table of the calling process, as its callers use it; the `read` flag has no effect in the code either.
- UserMemory.Memory.Mappages: ownership of a mapped page is tracked below TRAPFRAME; the trampoline and trapframe pages belong to the kernel.
- Virtio.Disk.Begin: waiting for descriptors is a retry here; that a waiter is woken is `DiskWaiters.DescriptorsTaken`.
- In `DiskWaiters` the wakeups of the three free_desc calls of one chain are one scan after the third, since vdisk_lock is held throughout; so are those of a failed alloc3_desc. A request the device fails stops at the panic of the interrupt handler.
- Umalloc.Heap.Malloc: addresses are in units of a header and sizes unbounded; sbrk is a parameter that grants or refuses, above everything it granted before. A request of 2^31 bytes or more, which sbrk takes as a negative number, is outside.
- Fsck.CheckBytes: the verdict is modelled as a flag, without the diagnostic codes and their details. An image is a sequence of whole blocks; one that is not is rejected by its length.
- ShellParser.ParseCommand: runcmd, getcmd and the line editor; the parser's panic is the result None, with the buffer unchanged.
- Grep.Grep: write errors and the choice of input files.
