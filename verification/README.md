# A verified model of the xv6 kernel's state-changing core

This project models, in Dafny, the parts of the xv6 teaching kernel (with its three-level priority
scheduler) whose correctness does not show on reading one function, and proves what they promise.
`dafny verify dfyconfig.toml` checks all of it. Code that works by changing things in place is a
class with methods proved against specification functions; protocols are state machines whose
theorems range over every run.

## The parts

- **Buffer cache** (`BufferCache.dfy`, bio.c and memide.c). Buffers sit on a doubly linked list in an
  array. The ghost field `view` is the block map that clients see. `Bcache.Valid` says: the list is a
  circular permutation of all buffers ordered by last release, a block has at most one buffer, a
  clean buffer holds what is on disk, and the view is the cached contents where there are some and
  the disk elsewhere. Every operation keeps it.
- **Redo log** (`RedoLog.dfy`, `Log.dfy`, log.c). `RedoLog` is the crash theory: a commit and a
  recovery are sequences of single block writes, a crash may fall between any two of them, also
  during recovery. `Log.KernelLog` is log.c on top of the cache; its commit is shown to issue exactly
  the writes of the theory. `KernelLog.Update` is the bread, store, log_write and brelse of every file
  system operation.
- **Log admission** (`LogAdmission.dfy`). begin_op, log_write and end_op under every interleaving.
- **Files** (`Bitmap.dfy`, `Inodes.dfy`, `FileBytes.dfy`, `Truncate.dfy`, `FileSystem.dfy`,
  `FileWrite.dfy`; fs.c and file.c). A ghost map records which slot of which inode owns each block.
  readi, writei, bmap, balloc, bfree and itrunc work on blocks and inodes in place; files are byte
  sequences.
- **Files through crashes** (`InodeBlocks.dfy`, `DiskLayout.dfy`, `DurableFs.dfy`, `CrashRuns.dfy`; fs.c,
  file.c and log.c together). `InodeBlocks` packs inodes into their blocks as iupdate does, and
  `DiskLayout` says at which byte of the disk each thing is. `DurableFs` says what a disk
  holds (`ValidDisk`, `FileOn`) by reading its blocks alone, and puts the file system on the log:
  wherever the commit of a write or of itrunc stops, recovery leaves a valid disk with the files from
  before or with the files from after. `CrashRuns.Play` is a whole script of writes and truncations, each
  with its own fate: finished, or crashed at any block write of the commit and again during recovery. The
  fate of a transaction is a sequence of events (`CrashRuns.FateEvents`), and `CrashRuns.Plays` says that
  the run is these sequences one after the other, one for every act of the script.
- **Storage allocator** (`Umalloc.dfy`, umalloc.c). Header fields in a heap of units; ghosts for the
  free list, all blocks, live blocks and the units obtained from sbrk.
- **Processes and scheduler** (`ProcSpec.dfy`, `ProcSteps.dfy`, `ProcTable.dfy`, `Fairness.dfy`,
  `Starvation.dfy`, `Turns.dfy`, `Chances.dfy`, `Stranding.dfy`, `BootRuns.dfy`, `ForkBudget.dfy`, proc.c as
  built with `CS333_SCHEDULER`). `ProcSpec` has one step per critical section, on lists as values, and
  `ProcSteps` says what each does, slot by slot and list by list; a system call needs a RUNNING caller, a
  device interrupt needs none. `ProcTable` is the table whose four lists share one `next` field, and each of its methods is
  shown to take exactly the step. `Fairness` is about how long a process can wait, `Starvation` about
  when it can wait for ever. `Turns`, `Chances` and `Stranding` decide that from the state: who can be made
  to run in time, whether this can wake a HIGH process that sleeps in wait, and what follows.
  `BootRuns` has runs from start-up in which things go wrong, and `ForkBudget` counts the forks of a run.
- **Sleep and wakeup** (`SleepWakeup.dfy`, proc.c). The handover of locks inside sleep, one
  instruction at a time, for any number of processes: why the other parts may take going to sleep as
  one step with the end of a critical section.
- **Pipes** (`Pipe.dfy`, pipe.c). The ring buffer with wrapping 32-bit counters, and the sleep/wakeup
  protocol of any number of readers and writers.
- **Address spaces** (`PageTables.dfy`, `TableCount.dfy`, `Vm.dfy`, `OneMapped.dfy`, vm.c and
  kalloc.c). Physical memory is an array of pages of words; the free list and the two-level tables live
  in those words. A ghost map records what each allocated frame is for. `TableCount` counts tables, so
  that setupkvm and copyuvm succeed exactly with so many free frames; `OneMapped` is a memory at which
  deallocuvm misses a page and allocuvm loses one.
- **Path names and inode cache** (`Icache.dfy`, `Paths.dfy`, fs.c).
- **Shell parser** (`ShellTokens.dfy`, `ShellGrammar.dfy`, `ShellSyntax.dfy`, `ShellErrors.dfy`,
  `Shell.dfy`, sh.c). `ShellTokens.Spells` says which tokens a line of characters is made of, and
  `ShellSyntax.Line` which tokens stand for which tree, both as relations. `ShellGrammar` is the parser over
  tokens as functions, proved to succeed exactly on the second; `ShellErrors` says what its panics mean.
  `Shell` is the character-level parser on the input buffer, as methods, and nulterminate; parsecmd is
  stated against both relations.
- **Matcher** (`Grep.dfy`, grep.c).

## Where the code does less than it promises

Each of these is a theorem with its exact condition.

- *Log full.* With operations that log up to `m` distinct blocks, for every `m` from one up, "too big a
  transaction" is reachable exactly if `MAXOPBLOCKS + 2 * m >= min(LOGSIZE, size - 1)`
  (`LogAdmission.PanicIff`). On the image that mkfs builds, whose log has LOGSIZE blocks with the
  header, `m = MAXOPBLOCKS` is enough to reach it and `m = MAXOPBLOCKS - 1` is not; the 17 blocks of a
  filewrite chunk, for which begin_op reserves only MAXOPBLOCKS, reach it too
  (`LogAdmission.ShippedImage`).
- *Starvation.* The process that the resetting dispatch picks keeps its priority. If it is HIGH and not
  killed, every process then RUNNABLE can be passed over for ever without any setPriority, and
  otherwise none can (`Starvation.ResetStarvesIff`). So from any state a process can be starved exactly
  if such a reset can be reached without dispatching it (`Starvation.StarvationIff`). This is decided by
  looking at the state, whatever it is (`Stranding.StarvableIff`): by `Exposed`, which says who is HIGH,
  alive, and awake or about to be woken, and by `Called`, which says whether a HIGH process asleep in wait
  can be woken before the reset, counting who is queued ahead: by the exit of a child; if it is init, also
  by the exit of the parent of a zombie, by the exits of a parent and its child, or by a fork and the exits
  of both. Killed processes exit on
  their way back to user space (`code/trap.c:97-110`), so runs in which one yields for ever do not
  count. Two system calls of init after start-up are enough (`BootRuns.StarvedChild`).
- *fork.* wait is to put the slot of a reaped child back on the free list, but under a macro that is
  spelled differently (`code/proc.c:402-404`, and `code/proc.c:71-75` when there is no kernel stack), so
  it does not. In every run since start-up the finished forks, the slots dropped for want of a stack and
  the slots that are still free or being set up add up to NPROC - 1, however many children have been
  reaped (`ForkBudget.SpareConserved`, `ForkBudget.ForksBounded`). After NPROC - 1 children, each forked,
  ended and reaped in turn, init is the only process and fork fails for good (`ForkBudget.ForkRunsOut`).
- *setPriority.* removeFromReadyList follows a null pointer exactly for the last of several members
  (`ProcTable.Ptable.RemoveFromReadyList`, `ProcSpec.SetPriorityFaultsIff`); two forks after start-up
  are enough (`BootRuns.SetPriorityCanFault`).
- *Pipes.* A sleeping reader can face a non-empty pipe: a killed writer that fills the pipe returns
  without a wakeup. Exactly these steps break the property (`Pipe.ReadersIff`, `Pipe.ReadersRunIff`,
  `Pipe.LostWakeup`).
- *allocuvm.* It does not look at what mappages answers. If it is one frame short and that frame is
  the table of the last page, it reports success with that page unmapped and its frame lost; it loses a
  frame exactly if the free frames run out at the table of some page (`Vm.Kernel.AllocUvm`, `Vm.Loses`).
  One free frame and a missing table are such a case (`OneMapped.SomeShort`).
- *deallocuvm.* Where a table is missing it steps ahead by a whole table from where it is, which sees
  every page that has a table exactly under the condition of `PageTables.VisitsIff`;
  `OneMapped.PageMissed` is a memory where a mapped page is not seen.
- *setupkvm.* A directory that has not got all its tables is not given back (`Vm.Kernel.SetupKvm`).
- *malloc.* The rounded size holds the request exactly if the rounding does not wrap
  (`Umalloc.UnitsLargeEnough`).

## Model

| member | source | states |
|---|---|---|
| `BufferCache.UnlinkKeeps` | code/bio.c:131-132 | taking a buffer off the ring leaves a ring of the others in the same order |
| `BufferCache.PushFrontKeeps` | code/bio.c:133-136 | the four assignments put a buffer right behind the head and keep both link directions consistent |
| `BufferCache.MovedToFront` | code/bio.c:122-136 | moving a buffer to the front with a fresh stamp keeps the list ordered by last release |
| `BufferCache.RecycleKeeps` | code/bio.c:83-92 | reusing a clean buffer for an uncached block changes nothing a client sees |
| `BufferCache.FlushKeeps` | code/memide.c:53-55 | writing a dirty buffer to its home block keeps the view |
| `BufferCache.FillKeeps` | code/memide.c:56-58 | reading a block nobody holds keeps the view |
| `BufferCache.SetDataKeeps` | code/bio.c:98-109 | data stored by the holder changes the view at that block only |
| `BufferCache.ReleaseKeeps` | code/bio.c:121-139 | a release keeps the view and the uniqueness of buffers |
| `BufferCache.SomeRecyclable` | code/bio.c:83-95 | with fewer than NBUF pinned blocks, bget's panic is not reached |
| `BufferCache.QuiescentDiskIsView` | code/bio.c:62-142 | with nothing busy or dirty, the disk alone is the view |
| `BufferCache.Bcache.constructor` | code/bio.c:39-57 | binit's loop yields a ring of all buffers that refines the disk |
| `BufferCache.Bcache.FindCached` | code/bio.c:69-81 | the forward walk finds the block's only buffer, or there is none |
| `BufferCache.Bcache.FindClean` | code/bio.c:83-95 | the backward walk finds the least recently released clean buffer, or none is clean |
| `BufferCache.Bcache.Bget` | code/bio.c:62-96 | hit, recycle, sleep or panic, with the exact new buffers in each case |
| `BufferCache.Bcache.Iderw` | code/memide.c:37-59 | one block to disk, or from it; the view does not change |
| `BufferCache.Bcache.Bread` | code/bio.c:98-109 | the buffer returned holds the latest contents of the block, cached or on disk |
| `BufferCache.Bcache.Bwrite` | code/bio.c:111-119 | the disk changes at that block only, in one write |
| `BufferCache.Bcache.MarkDirty` | code/log.c:228 | the buffer is pinned: bget does not recycle dirty buffers |
| `BufferCache.Bcache.Brelse` | code/bio.c:121-142 | the buffer is first in the list with the newest stamp; every other buffer keeps its contents |
| `RedoLog.RedoIsIdempotent` | code/log.c:68-81 | replaying all writes after any prefix of them gives the same disk |
| `RedoLog.RecoveredHome` | code/log.c:114-121 | recovery installs exactly what is pending and then clears the header |
| `RedoLog.EmptyLogRecovers` | code/log.c:114-121 | an empty log leaves the home blocks alone |
| `RedoLog.RecoveryCrash` | code/log.c:114-121 | a crash after any number of recovery's writes leaves a disk that recovers to the same home blocks |
| `RedoLog.AtCommitPoint` | code/log.c:174-194 | after the header write: slots filled, header naming them, home blocks untouched |
| `RedoLog.CommitPointRecovers` | code/log.c:189-199 | recovery from the commit point gives the whole transaction |
| `RedoLog.CrashBeforeCommitPoint` | code/log.c:174-194 | a crash before the header write recovers to the state before |
| `RedoLog.CrashAfterCommitPoint` | code/log.c:194-198 | a crash at or after it recovers to the state after |
| `RedoLog.CommitCrash` | code/log.c:189-199 | after any number of commit's writes, recovery gives all or nothing, and the number decides which |
| `RedoLog.CommitEmptiesLog` | code/log.c:189-199 | a finished commit leaves an empty log |
| `RedoLog.CommitKeepsView` | code/log.c:189-199 | committing what the cache already shows changes no home block a client sees |
| `RedoLog.StepRefines` | code/log.c:68-121 | one commit or recovery, finished or crashed, keeps the recovered home blocks equal to the ideal disk |
| `RedoLog.CrashAtomicity` | code/log.c:68-199 | every run of commits, recoveries and crashes leaves exactly the transactions that reached their commit point, whole and in order |
| `Log.KernelLog.constructor` | code/log.c:52-65 | recovery runs first: the disk is `Recovered` of what was there, with an empty log and a cache that agrees |
| `Log.KernelLog.WriteLog` | code/log.c:173-187 | the slots get the latest contents of the logged blocks, one write each, in order, whichever other blocks readers hold |
| `Log.KernelLog.InstallTrans` | code/log.c:67-81 | every slot goes to its home block, one write each, in order |
| `Log.KernelLog.ReadHead` | code/log.c:83-95 | the in-memory header is the one on disk |
| `Log.KernelLog.WriteHead` | code/log.c:97-112 | one write, of a header that names the logged blocks |
| `Log.KernelLog.Recover` | code/log.c:114-121 | the disk becomes `Recovered` of it by exactly the writes of the theory, and the cache agrees |
| `Log.KernelLog.Commit` | code/log.c:189-199 | exactly the writes of the theory; clients see no change; the log is empty; readers may hold buffers throughout |
| `Log.KernelLog.EffectIsView` | code/log.c:174-187 | the transaction applied to the disk is what clients see: write_log never takes a stale block |
| `Log.KernelLog.CommitIsAtomic` | code/log.c:189-199 | wherever commit stops, recovery brings back the disk from before or all that clients see |
| `Log.KernelLog.LogWrite` | code/log.c:210-230 | both panics exactly when the guards say so; otherwise the block is recorded once and its buffer pinned |
| `Log.KernelLog.Update` | code/fs.c:40-48 | a block read, changed, logged and released: clients see the new contents, nothing is written, and again only logged blocks are dirty |
| `Log.KernelLog.BeginOp` | code/log.c:124-140 | admitted exactly when not committing and the reservation fits |
| `Log.KernelLog.EndOp` | code/log.c:144-171 | the last operation commits, the others only leave; the view is unchanged |
| `LogAdmission.StepKeepsInv` | code/log.c:124-230 | one step of any operation keeps the admission invariant |
| `LogAdmission.Admission` | code/log.c:124-171 | in every interleaving the log and the unused reservations fit LOGSIZE, blocks are distinct, and commit runs with nobody outstanding |
| `LogAdmission.PanicIff` | code/log.c:215-216 | for operations of any size, the log-full panic is reachable exactly if MAXOPBLOCKS + 2m reaches the guard |
| `LogAdmission.ShippedImage` | code/mkfs.c:25 | with LOGSIZE log blocks, MAXOPBLOCKS per operation reaches the panic, one block fewer does not, and a filewrite chunk's 17 do |
| `Bitmap.PutBitsIn` | code/fs.c:63-65 | setting or clearing one bit of a byte changes that bit only |
| `Inodes.OneOwner` | code/fs.c:356-384 | no block is in two slots |
| `Inodes.LinkDirect` | code/fs.c:362-366 | linking a fresh block into an empty direct slot keeps ownership |
| `Inodes.LinkIndirect` | code/fs.c:371-372 | linking a fresh zeroed block as indirect block keeps ownership |
| `Inodes.LinkEntry` | code/fs.c:375-378 | linking a fresh block into an empty indirect entry keeps ownership |
| `Inodes.MapBoth` | code/fs.c:369-381 | pointer and then entry are together one mapping step |
| `FileBytes.MapKeepsBytes` | code/fs.c:356-384 | mapping a block changes no byte that was mapped before |
| `FileBytes.StoreBytes` | code/fs.c:481-483 | storing a chunk changes those bytes of that file and nothing else |
| `FileBytes.WriteStep` | code/fs.c:479-485 | the written file after one pass of the loop |
| `FileBytes.WriteStepOthers` | code/fs.c:479-485 | every other file after one pass of the loop |
| `FileBytes.AdvancedContent` | code/fs.c:479-490 | all passes and the new size together are a splice of the contents |
| `FileBytes.ReadStep` | code/fs.c:451-456 | the part of a block that readi copies is the next part of the contents |
| `Truncate.UnlinkDirect` | code/fs.c:398-403 | emptying a direct slot leaves its block without owner and no other |
| `Truncate.UnlinkIndirect` | code/fs.c:405-415 | emptying the indirect pointer drops exactly its entries |
| `Truncate.EntryOwner` | code/fs.c:408-411 | each non-empty entry owns its block, and no other entry and no address of the inode names it: no double free |
| `FileSystem.BitChange` | code/fs.c:60-71 | changing one bit changes the set of allocated blocks by that block |
| `FileSystem.FindFree` | code/fs.c:60-74 | the two loops find the first clear bit, or all bits are set |
| `FileSystem.EmptyImage` | code/mkfs.c:108-116 | a disk with only the metadata marked, and empty inodes, is a valid image |
| `FileSystem.Fs.constructor` | code/mkfs.c:93-116 | a valid file system in which every file is empty, as mkfs has it before it adds the root directory |
| `FileSystem.Fs.Mount` | code/fs.c:162-169 | the blocks and inodes of any valid image, taken over as they are, are a valid file system |
| `FileSystem.Fs.Balloc` | code/fs.c:53-75 | an unowned block, zeroed and marked; out of blocks exactly if all bits are set |
| `FileSystem.Fs.Bfree` | code/fs.c:78-93 | clears the bit; the panic exactly if it was clear |
| `FileSystem.Fs.Bmap` | code/fs.c:356-384 | the block of file block bn; one mapping step if there was none, no change if there was |
| `FileSystem.Fs.Readi` | code/fs.c:434-458 | exactly the requested slice clipped at the size, -1 exactly on a bad range, and no block is ever allocated |
| `FileSystem.Fs.WriteBlock` | code/fs.c:479-485 | one pass: map, store and log the block |
| `FileSystem.Fs.Iupdate` | code/fs.c:199-215 | the on-disk inode becomes the in-memory one |
| `FileSystem.Fs.Writei` | code/fs.c:462-492 | exactly [off, off+n) is replaced and the size is the maximum; out of blocks exactly if the blocks it adds, counting the indirect one, are more than are free; other files are untouched; disk and memory inodes agree again; few blocks are logged, and whatever changed is among them |
| `FileSystem.Fs.FreeAll` | code/fs.c:398-415 | every slot is emptied and "freeing free block" is not reached |
| `FileSystem.Fs.Itrunc` | code/fs.c:391-419 | the file is empty, exactly its blocks are free, other files are untouched; whatever changed is logged |
| `FileSystem.Fs.BitIffOneOwner` | code/fs.c:53-93 | a data block's bit is set exactly when one and only one slot holds it |
| `FileWrite.SpliceTwice` | code/file.c:133-152 | two adjacent writes are one |
| `FileWrite.ChunkSpan` | code/file.c:132 | a chunk at any offset lies in at most 14 blocks |
| `FileWrite.FewLogged` | code/file.c:126-132 | the data blocks, one bitmap, one indirect and one inode block are all that is logged |
| `FileWrite.File.WriteChunk` | code/file.c:139-144 | one transaction that logs whatever it changes; out of blocks exactly if it needs more than are free; with one bitmap block at most 17 distinct blocks, below the log-full guard |
| `FileWrite.File.Write` | code/file.c:116-155 | returning n, the loop is one write of n bytes at the old offset; otherwise whole chunks are written and the next one was refused |
| `InodeBlocks.PutInode` | code/fs.c:205-212 | iupdate's stores: this inode reads back, its type and links and its neighbours in the block are as before |
| `InodeBlocks.FlatInodes` | code/fs.c:199-215 | the inodes stored in the blocks of a disk read back from it |
| `DiskLayout.InodeBytes` | code/fs.h:28-35 | the size and the addresses of an inode are at these bytes of its 64 |
| `DiskLayout.InodePlace` | code/fs.h:38-41 | inode i is number i % 8 of block inodestart + i / 8 |
| `DiskLayout.FileBlockPlace` | code/fs.c:356-384 | file block n is at address n of the inode, or at number n - 12 of the indirect block |
| `DiskLayout.FileBytePlace` | code/fs.c:451-456 | file byte p is byte p % 512 of file block p / 512 |
| `DiskLayout.BitPlace` | code/fs.h:44-47 | the bit of block b is this bit of this byte of block bmapstart + b / 4096 |
| `DiskLayout.HeaderBytes` | code/log.c:33-36 | the count and the block numbers are at these bytes of the log header |
| `DiskLayout.PendingBytes` | code/log.c:68-82 | what recovery installs, from the bytes of the header and the blocks behind it |
| `DurableFs.Transfer` | code/fs.c:356-384 | validity and contents depend on the free map, the data and the inodes read from their blocks, and on nothing else |
| `DurableFs.SameFiles` | code/log.c:68-121 | disks that differ in the log alone hold the same files |
| `DurableFs.FsOnDisk` | code/fs.c:199-215 | a valid file system is a valid disk with the same files |
| `DurableFs.OperationCrash` | code/log.c:189-199 | between two valid disks that differ in logged blocks alone: wherever the commit stops, recovery leaves a valid disk with the files of the one or of the other |
| `DurableFs.SameCrowd` | code/fs.c:53-75 | whether a write has room depends on the free map and the file alone, not on the log |
| `DurableFs.WriteChunkSafely` | code/file.c:139-144 | a chunk of filewrite survives every crash as a whole or not at all, with all other files as they were; out of blocks exactly if the disk has no room for it |
| `DurableFs.TruncateSafely` | code/fs.c:391-419 | so does itrunc |
| `DurableFs.LogBlocks` | code/log.c:210-230 | the blocks of an operation go through cache and log: clients see the new disk, and none of it is written yet |
| `DurableFs.CommitSurvives` | code/log.c:189-199 | wherever the running log's commit stops, recovery leaves the files of before or those that clients see |
| `DurableFs.FilesSurvive` | code/log.c:68-199 | over every run of commits and recoveries, finished or crashed, of transactions that keep the disk valid, the disk is valid and holds what the committed ones made, each whole and in order |
| `CrashRuns.ComesUp` | code/log.c:68-121 | however often and wherever recovery is stopped, when it ends at last the disk is the one that the first would have left |
| `CrashRuns.OneAct` | code/log.c:189-199 | the events of a transaction's fate (the commit, or its crash after just that many writes and every recovery after it) are a run of the log's machine, which ends up with the old disk if the crash was before the header write and with the new one otherwise |
| `CrashRuns.Operate` | code/file.c:116-155 | a write chunk or a truncation takes one valid disk to another, logging all it changes, at most 17 blocks; it is stuck exactly if there is no room |
| `CrashRuns.PlayOne` | code/log.c:189-199 | the events are those of the operation's transaction and its fate, from the disk as it was; the files are those of before an early crash, otherwise those of after |
| `CrashRuns.Play` | code/log.c:68-199 | for every script of writes and truncations and every crash point of their commits and recoveries, the machine goes through just these events, act by act, and holds exactly the files that the script leaves; it stops early only before a write that has no room |
| `Umalloc.TileMerge` | code/umalloc.c:33-42 | joining two touching blocks keeps the blocks a partition of all units |
| `Umalloc.TileSplit` | code/umalloc.c:79-81 | splitting a block keeps the partition |
| `Umalloc.InsertGood` | code/umalloc.c:30-37 | inserting a block at its place keeps the list circular and in address order |
| `Umalloc.JoinGood` | code/umalloc.c:33-42 | joining neighbours keeps the heap invariant |
| `Umalloc.FreedGood` | code/umalloc.c:24-44 | insert and both joins together restore the whole invariant: no two free blocks touch |
| `Umalloc.FreeNeverTouch` | code/umalloc.c:24-44 | in every reachable heap two free blocks never touch |
| `Umalloc.FreeBlockLarge` | code/umalloc.c:33-42 | a freed block lies inside some free block at least as large |
| `Umalloc.RemoveGood` | code/umalloc.c:76-77 | an exact fit leaves the list and becomes live |
| `Umalloc.CarveGood` | code/umalloc.c:78-82 | otherwise the upper end becomes a live block of its own |
| `Umalloc.NothingFits` | code/umalloc.c:74-87 | once around without a fit: no free block is large enough |
| `Umalloc.UnitsLargeEnough` | code/umalloc.c:69 | the rounded size holds the request exactly if 32-bit rounding does not wrap, and is never a whole unit too large |
| `Umalloc.Allocator.FindPlace` | code/umalloc.c:29-32 | from wherever freep is, the search ends at the block's place in address order |
| `Umalloc.Allocator.Free` | code/umalloc.c:24-44 | the block is free, the others live with their sizes, and the heap invariant holds |
| `Umalloc.Allocator.Morecore` | code/umalloc.c:46-61 | at least the units asked for join the heap as a free block large enough; live blocks stay |
| `Umalloc.Allocator.Search` | code/umalloc.c:74-89 | malloc's loop terminates with a block of exactly that size, overlapping no live one; sbrk is asked exactly if no free block is large enough, for at least 4096 units, and 0 is returned exactly if it then has no more |
| `Umalloc.Allocator.Malloc` | code/umalloc.c:63-90 | as Search, for the rounded size of the request, which is large enough |
| `ProcSpec.WakeUpToProcs` | code/proc.c:598-611 | exactly the sleepers on the channel become RUNNABLE |
| `ProcSpec.WakeUpToLists` | code/proc.c:598-611 | wakeup1 keeps the list discipline |
| `ProcSpec.ReparentProcs` | code/proc.c:363-370 | children move to init, and a zombie among them wakes init |
| `ProcSpec.ExitProcs` | code/proc.c:358-374 | what exit does to every slot, and who can still be asleep afterwards |
| `ProcSpec.ExitInv` | code/proc.c:336-376 | exit keeps the invariant: no parent is left asleep with a zombie child, also after reparenting |
| `ProcSpec.WaitInv` | code/proc.c:380-422 | reaping and going to sleep in wait keep the invariant |
| `ProcSpec.AllocInv` | code/proc.c:41-66 | taking a slot off the free list keeps the invariant |
| `ProcSpec.FailInv` | code/proc.c:69-77 | a slot given back after a failure is UNUSED, and on the free list only when fork puts it there |
| `ProcSpec.ForkDoneInv` | code/proc.c:301-328 | the finished child is queued once, on the default list |
| `ProcSpec.SleepInv` | code/proc.c:560-583 | going to sleep keeps the invariant |
| `ProcSpec.WakeupInv` | code/proc.c:614-620 | waking a channel keeps the invariant |
| `ProcSpec.KillInv` | code/proc.c:625-647 | kill keeps the invariant, waking a sleeper onto the list of its priority |
| `ProcSpec.SetPriorityFaultsIff` | code/proc.c:200-221 | the null read happens exactly for the last of several members of a list other than the new one |
| `ProcSpec.SetPriorityMoves` | code/proc.c:720-750 | the first process with the pid gets the priority and nothing else in the table changes; a RUNNABLE one leaves its list, whose others stay in order, for the end of the list of the new priority |
| `ProcSpec.SetPriorityInv` | code/proc.c:720-750 | after that every RUNNABLE process is again on the list of its priority, once |
| `ProcSpec.ResetLists` | code/proc.c:223-253 | merging the lists keeps every RUNNABLE process on exactly one list, the picked one apart |
| `ProcSpec.DispatchInv` | code/proc.c:425-460 | a dispatch, with or without the reset, keeps the invariant |
| `ProcSpec.NextInv` | code/proc.c:41-750 | every critical section keeps the invariant |
| `ProcSpec.RunInv` | code/proc.c:41-750 | in every run: each RUNNABLE process on exactly one ready list, once, the one of its priority; nobody else on any; free slots UNUSED; no parent asleep on a zombie |
| `ProcSpec.BootedInv` | code/proc.c:98-142 | the state userinit leaves meets the invariant |
| `ProcSteps.AllocTakes` | code/proc.c:48-66 | the head of the free list, which nobody uses, becomes EMBRYO with a pid nobody has; nothing changes if there is none |
| `ProcSteps.ForkMakes` | code/proc.c:301-328 | the embryo becomes a RUNNABLE child of the caller at the end of the default list |
| `ProcSteps.FailureReturns` | code/proc.c:69-77 | without a stack the slot is UNUSED and on no list; without memory it is at the end of the free list as well |
| `ProcSteps.WaitReaps` | code/proc.c:390-411 | the first child that has ended is UNUSED, without pid, parent and kill mark, and on no list |
| `ProcSteps.WaitWaits` | code/proc.c:414-421 | with no such child the caller sleeps on itself, or returns at once exactly if it has no child or is killed |
| `ProcSteps.GivesUp` | code/proc.c:520-583 | yield puts the caller at the end of its list, sleep on no list |
| `ProcSteps.KillMarks` | code/proc.c:625-647 | the process is marked, and one that sleeps goes to the end of the list of its priority |
| `ProcSteps.WakeupQueues` | code/proc.c:598-611 | the sleepers on the channel go to the ends of their lists in the order of their slots |
| `ProcSteps.DispatchRuns` | code/proc.c:436-455 | the head of the first list that is not empty runs; only that changes |
| `ProcSteps.DispatchResets` | code/proc.c:223-253 | at the reset all others go to the default list and priority, HIGH ones ahead of LOW ones, but not the process picked |
| `Fairness.DispatchReady` | code/proc.c:436-455 | the lists after a dispatch: the head of the highest non-empty list gone, and after a reset default, then high, then low |
| `Fairness.StepGrows` | code/proc.c:41-647 | every other step only appends to the lists and keeps RUNNABLE processes where they are |
| `Fairness.QueuedWait` | code/proc.c:425-460 | with nobody HIGH, or nobody HIGH and alive, the default list is served in order |
| `Fairness.BoundedWaiting` | code/proc.c:425-460 | if resets pick no HIGH process, or in orderly runs none that is alive, a process passed over sees at most timeToReset + NPROC - 2 dispatches |
| `Starvation.Spin` | code/proc.c:440-453 | one live HIGH process that the reset will pick can keep the processor for any number of dispatches |
| `Starvation.ResetStarvesIff` | code/proc.c:440-453 | after a resetting dispatch a RUNNABLE process can be starved without end exactly if the picked one is HIGH and not killed |
| `Starvation.StarvationIff` | code/proc.c:425-460 | from any state, exactly if such a reset can be reached without dispatching the process |
| `Starvation.ExposedStarves` | code/proc.c:425-460 | every process that the state alone shows to be exposed can be starved without end |
| `Starvation.HighWait` | code/proc.c:436-450 | a HIGH process whose turn is before the reset waits for those ahead of it only |
| `Starvation.NextServed` | code/proc.c:380-422 | a HIGH parent that waits for its only child does not starve it |
| `Turns.BothBack` | code/proc.c:425-460 | two processes that can both be made to run before q and the reset could be so before every step that only lengthens the lists |
| `Turns.BothDispatch` | code/proc.c:436-455 | and before a dispatch of somebody other than q |
| `Chances.WayBack` | code/proc.c:279-376 | no step opens a way to wake a sleeper in wait that was not there: neither fork, nor an exit that leaves children or a zombie |
| `Chances.TwoInterrupts` | code/proc.c:598-620 | while nobody runs, two interrupts open nothing that one of them does not |
| `Chances.StepInWait` | code/proc.c:380-422 | a process asleep in wait stays so through every step, unless it is killed or somebody runs whose exit wakes it |
| `Chances.MutedRun` | code/proc.c:425-460 | if nobody has the chance to wake a HIGH sleeper in wait in time, no later reset picks a live HIGH process |
| `Chances.SettledRun` | code/proc.c:560-647 | in orderly runs no killed process is asleep, and sleepers sleep on a device, on another object or on themselves |
| `Stranding.ExitHoping` | code/proc.c:336-376 | an exit that wakes nobody HIGH leaves init asleep and the HIGH list as it is |
| `Stranding.PairStarves` | code/proc.c:336-376 | a parent and its child that can both be made to run in time, or one whose exit alone does it, wake the sleeper before the reset, and q is passed over any number of times |
| `Stranding.ForkStarves` | code/proc.c:279-376 | so do somebody who runs, and a child it forks |
| `Stranding.ChanceStarves` | code/proc.c:336-376 | every chance to wake a HIGH sleeper in wait starves q |
| `Stranding.UncalledBound` | code/proc.c:425-460 | neither exposed nor called: dispatched within timeToReset + NPROC - 1 dispatches |
| `Stranding.StarvableIff` | code/proc.c:425-460 | from the state alone: starved without end exactly if exposed or called |
| `BootRuns.SetPriorityCanFault` | code/proc.c:739-743 | a run from start-up, two forks long, after which setPriority by init follows the null pointer |
| `BootRuns.StarvedChild` | code/proc.c:720-750 | a run from start-up after which init's child can be starved without end |
| `ForkBudget.StepSpends` | code/proc.c:41-420 | no step adds to the slots that can still become a process, and one is spent by a finished fork or a missing stack alone, also when wait reaps |
| `ForkBudget.SpareConserved` | code/proc.c:41-420 | over every run, finished forks, dropped slots and spare slots add up to the spare slots at its start |
| `ForkBudget.ForksBounded` | code/proc.c:402-404 | since start-up at most NPROC - 1 forks succeed, whatever has been reaped |
| `ForkBudget.RoundEnds` | code/proc.c:279-420 | after fork, wait and the child's exit the table is as before, but the slot is gone from the free list |
| `ForkBudget.ForkRunsOut` | code/proc.c:402-404 | a run from start-up after which init is the only process and no later run finishes a fork |
| `ProcTable.ChainAppend` | code/proc.c:180-198 | linking at the tail extends the chain |
| `ProcTable.ChainUnlink` | code/proc.c:213-217 | unlinking an interior member keeps the chain of the others |
| `ProcTable.Ptable.constructor` | code/proc.c:98-142 | zeroed memory and userinit give the booted table |
| `ProcTable.UnusedOrder` | code/proc.c:148-158 | pushing each UNUSED slot on the front leaves them in falling order |
| `ProcTable.Ptable.InitFreeList` | code/proc.c:147-158 | exactly the UNUSED slots chained, last first, at default priority |
| `ProcTable.Ptable.PutOnFreeList` | code/proc.c:161-178 | the slot is appended; the three ready lists, which share the links, are unchanged |
| `ProcTable.Ptable.PutOnReadyList` | code/proc.c:181-198 | the process is appended to that list and to no other |
| `ProcTable.Ptable.RemoveFromReadyList` | code/proc.c:200-221 | the process is off the list, the order of the others kept; the fault flag is exact |
| `ProcTable.Ptable.ResetReadyList` | code/proc.c:223-253 | the walk that relinks while it goes on refines the merged list; it never faults |
| `ProcTable.Ptable.Wakeup1` | code/proc.c:598-611 | refines the step of the specification |
| `ProcTable.Ptable.Exit` | code/proc.c:358-374 | refines the step of the specification and keeps its invariant |
| `ProcTable.Ptable.Wait` | code/proc.c:386-421 | a pid is returned exactly if there is a zombie child; -1 only without children or when killed |
| `ProcTable.Ptable.AllocProc` | code/proc.c:47-66 | the head of the free list becomes EMBRYO with a new pid, or the list is empty |
| `ProcTable.Ptable.ForkUndo` | code/proc.c:290-300 | the slot is UNUSED and at the end of the free list |
| `ProcTable.Ptable.ForkFinish` | code/proc.c:301-328 | the child is RUNNABLE at the end of the default list |
| `ProcTable.Ptable.Yield` | code/proc.c:525-535 | the process is RUNNABLE at the end of its list |
| `ProcTable.Ptable.Kill` | code/proc.c:625-647 | refines the step of the specification; -1 exactly if no slot has the pid |
| `ProcTable.Ptable.SetPriority` | code/proc.c:720-750 | the new priority, and for a RUNNABLE process the end of its list, unless it faults; exactly when it does |
| `ProcTable.Ptable.Schedule` | code/proc.c:436-455 | picks the head of the highest non-empty list and refines the dispatch step; idle exactly if all lists are empty |
| `SleepWakeup.StepLocks` | code/proc.c:575-592 | each lock is held by exactly the process whose place in the code says so, through every handover |
| `SleepWakeup.StepInv` | code/proc.c:560-620 | one step of sleep, wakeup or kill keeps: whoever is asleep, or on the way there without the lock, while the condition holds, has a wakeup pending |
| `SleepWakeup.NoLostWakeup` | code/proc.c:560-620 | in every run, when the condition's lock is free and the condition holds, nobody is asleep on it or about to be |
| `SleepWakeup.WakeAllWakes` | code/proc.c:598-620 | wakeup leaves nobody asleep and moves nobody else |
| `SleepWakeup.FallsAsleep` | code/proc.c:560-583 | a process that finds the condition false does fall asleep, with both locks free |
| `SleepWakeup.GetsWoken` | code/proc.c:585-620 | and is woken by whoever makes it true, to test it again with the lock |
| `Pipe.Counters` | code/pipe.c:84-113 | the full and empty tests and the slot numbers are right although the counters wrap |
| `Pipe.FillRep` | code/pipe.c:83-93 | a writer stores the longest prefix there is room for |
| `Pipe.DrainRep` | code/pipe.c:112-116 | a reader gets the next bytes in the order they were stored |
| `Pipe.StepInv` | code/pipe.c:58-120 | every critical section keeps FIFO, "a sleeping writer faces a full pipe with its read end open" and "never both asleep" |
| `Pipe.RunInv` | code/pipe.c:58-120 | the same over every run, for any number of readers and writers |
| `Pipe.RunFifo` | code/pipe.c:77-120 | bytes delivered, then at most PIPESIZE buffered ones, are the bytes stored |
| `Pipe.ReadersIff` | code/pipe.c:84-92 | a step leaves readers asleep only on an empty open pipe exactly if it is not the one that loses a wakeup |
| `Pipe.ReadersRunIff` | code/pipe.c:58-120 | the same over runs |
| `Pipe.LostWakeup` | code/pipe.c:85-88 | a run in which a reader sleeps on a non-empty pipe |
| `Pipe.CloseEnds` | code/pipe.c:58-70 | closing shuts that end alone, loses no byte, and leaves nobody asleep at the other end |
| `Pipe.RunClosed` | code/pipe.c:58-120 | in every run after that the end stays shut, and no reader, or no writer, is ever asleep again |
| `Pipe.EndOfFile` | code/pipe.c:105-120 | with the write end shut a reader returns with what is left, and with nothing at the end |
| `Pipe.BrokenPipe` | code/pipe.c:83-97 | with the read end shut a writer stores what there is room for and returns |
| `Pipe.WriteThenRead` | code/pipe.c:77-120 | bytes that fit an empty pipe come out as they went in |
| `Pipe.KernelPipe.Close` | code/pipe.c:58-75 | that end is shut, the sleepers at the other are to be woken, and the pipe is freed exactly if both are |
| `Pipe.KernelPipe.constructor` | code/pipe.c:32-36 | an empty pipe with both ends open |
| `Pipe.KernelPipe.Write` | code/pipe.c:77-97 | the loop, up to its next sleep or return, is `Fill`; which of the three ends it takes |
| `Pipe.KernelPipe.Read` | code/pipe.c:99-120 | the loop is `Drain`; sleeps or fails exactly on an empty pipe with its write end open |
| `PageTables.SetPteLookup` | code/vm.c:64-83 | writing one entry changes the map of that directory at that page and no other map |
| `PageTables.AddTableOk` | code/vm.c:54-63 | a new table changes no map |
| `PageTables.MapUser` | code/vm.c:79-83 | mapping a page to an unused frame keeps every frame with exactly one use |
| `PageTables.Unmap` | code/vm.c:263-270 | unmapping gives up that frame and no other |
| `PageTables.DropOk` | code/vm.c:285-291 | giving up a directory and its tables leaves every other address space intact |
| `PageTables.VisitsIff` | code/vm.c:258-271 | deallocuvm's walk sees every page with a table exactly under this condition |
| `OneMapped.PageMissed` | code/vm.c:258-262 | a memory, with frame 0 unused, and a range where a mapped page is not seen |
| `Vm.Kernel.constructor` | code/kalloc.c:30-52 | all frames from the first on are free, each once |
| `Vm.Kernel.FreeRange` | code/kalloc.c:45-52 | exactly the frames of the range are added |
| `Vm.Kernel.Kfree` | code/kalloc.c:59-77 | the frame is first on the list; no map and no user page changes |
| `Vm.Kernel.Kalloc` | code/kalloc.c:82-95 | the first free frame, or null exactly if there is none |
| `Vm.Kernel.Walk` | code/vm.c:45-65 | the table of the page; a new one only if missing, wanted and possible; no map changes |
| `Vm.Kernel.MapPage` | code/vm.c:79-84 | page p maps to the frame; fails exactly if a table is missing and no frame is free |
| `Vm.Kernel.MapPages` | code/vm.c:70-90 | every page of the range maps to its frame, or the frames ran out at a table after k pages; user frames become used, free frames and tables add up as before |
| `Vm.KernelIsDirect` | code/vm.c:113-123 | every frame f below PHYSTOP is at KERNBASE + f, not for users, and writable except from EXTMEM up to `data`; devices are at their own addresses; nothing else is mapped |
| `Vm.Kernel.SetupKvm` | code/vm.c:128-144 | a new map with exactly these kernel pages and no user page, exactly if 65 frames are free; existing address spaces untouched; otherwise no frame is left and the unfinished directory stays allocated |
| `Vm.Kernel.DeallocUvm` | code/vm.c:249-273 | exactly the visited pages are unmapped and their frames freed; nothing else changes |
| `Vm.Kernel.FreeVm` | code/vm.c:277-292 | exactly the frames of this address space go to the free list, each once; all others are untouched |
| `Vm.Restored` | code/vm.c:234-238 | a failed allocation leaves the map as it was |
| `Vm.LastTableShort` | code/vm.c:233-240 | one page into a missing table with one free frame is the lossy case |
| `OneMapped.SomeShort` | code/vm.c:233-240 | a consistent memory, with frame 0 unused, at which it happens |
| `Vm.Kernel.AllocUvm` | code/vm.c:220-243 | the exact outcome for every number of free frames: zeroed pages, a lost last page, or the old map; exactly when one frame, and no more, is lost |
| `Vm.Kernel.CopyUvm` | code/vm.c:309-337 | succeeds exactly with frames for the directory, the tables and the pages; equal bytes and flags in frames that were free and are pairwise distinct, with the kernel's part as setupkvm makes it; parent and all others unchanged, also on failure |
| `Icache.RefsIsSlot` | code/fs.c:220-262 | with one slot per inode its reference count is that slot's |
| `Icache.Cache.constructor` | code/fs.c:157-169 | an empty cache over a disk is valid |
| `Icache.Cache.Iget` | code/fs.c:220-251 | one more reference to that inode and no other change; at most one slot per inode; the panic exactly if every slot is in use |
| `Icache.Cache.Idup` | code/fs.c:255-262 | one more reference |
| `Icache.Cache.Ilock` | code/fs.c:266-295 | asleep exactly if somebody has the lock; otherwise locked and read from disk, with the panic exactly for an inode without type; references unchanged |
| `Icache.Cache.Iunlock` | code/fs.c:298-308 | unlocked; references unchanged |
| `Icache.Cache.Iput` | code/fs.c:317-336 | one reference less; the inode is freed on disk exactly if it was the last and there are no links; the panic exactly if it is locked then |
| `Paths.LeadingSlash` | code/fs.c:582-583 | skipping a slash skips no element |
| `Paths.FirstElement` | code/fs.c:586-594 | the first element is everything up to the slash, cut to DIRSIZ |
| `Paths.NameEq` | code/fs.c:497-501 | names are equal exactly if they agree up to a NUL or DIRSIZ bytes |
| `Paths.ElementsIff` | code/fs.c:560-599 | a path has exactly the elements it is made of: its runs of characters between slashes, in order, each cut to DIRSIZ |
| `Paths.ElementsJoined` | code/fs.c:560-599 | a path written out of names is taken apart into the same names |
| `Paths.SkipElem` | code/fs.c:576-599 | the next element in the buffer and the rest of the path, or none; at the end of the path exactly if no element follows |
| `Paths.FindFirst` | code/fs.c:514-526 | nothing exactly if no entry in use has the name, otherwise the first that has |
| `Paths.DirLookup` | code/fs.c:505-529 | the inode of the first entry with that name, with a new reference, or no entry has it |
| `Paths.WalkIff` | code/fs.c:615-632 | a path leads to an inode exactly if there are directories on the way, each with the next name for the next |
| `Paths.ParentHolds` | code/fs.c:605-638 | the inode of a path is what the directory that nameiparent gives has under the last name |
| `Paths.TargetStep` | code/fs.c:615-632 | one round of the loop is one step of the fold, also for the parent form |
| `Paths.LinkedLasts` | code/fs.c:317-336 | where every entry names an inode with links, no inode on any way is freed by the walk |
| `Paths.Namex` | code/fs.c:605-638 | the inode that folding lookup over the elements gives, with exactly one reference more; nothing and no reference otherwise; the parent form stops early with the last name; it waits exactly at the first inode on the way whose lock another process holds, panics only there at an inode without type, and leaves all other locks alone |
| `ShellGrammar.ParseRecords` | code/sh.c:423-541 | every word of the line is recorded exactly once, as argument or file name |
| `ShellSyntax.ParseIff` | code/sh.c:423-541 | the parser returns a tree exactly on the lines that stand for it in the syntax: redirections anywhere, any number of parentheses |
| `ShellSyntax.Unambiguous` | code/sh.c:423-541 | no line stands for two trees |
| `ShellSyntax.ParsePrint` | code/sh.c:439-541 | every proper tree, printed, parses back to itself |
| `ShellSyntax.ParseImage` | code/sh.c:423-541 | the trees the parser returns are exactly the proper ones |
| `ShellErrors.ErrorMeans` | code/sh.c:423-541 | each panic is raised only on a line that has the fault it names |
| `ShellTokens.LexIff` | code/sh.c:360-403 | the scanner finds exactly the tokens that the line is made of: only white space between them, ">>" as one, words as long as can be |
| `ShellTokens.LexWritten` | code/sh.c:360-403 | whatever words and symbols are written out with spaces are read back as they were |
| `ShellTokens.LexRuns` | code/sh.c:390-397 | recorded words are maximal runs of word characters |
| `Shell.WordsSurvive` | code/sh.c:544-588 | after termination a word reads as a C string exactly as it was scanned: no terminator is inside another word |
| `Shell.Line.GetToken` | code/sh.c:360-403 | the next token of the characters, its extent and where the next one starts, or only white space is left |
| `Shell.Line.Peek` | code/sh.c:405-415 | whether the next token starts with one of the symbols; only spaces are skipped |
| `Shell.Line.ParseRedirs` | code/sh.c:469-492 | agrees with the grammar, errors included |
| `Shell.Line.ParseBlock` | code/sh.c:494-508 | agrees with the grammar, errors included |
| `Shell.Line.ParseExec` | code/sh.c:510-541 | agrees with the grammar, errors included |
| `Shell.Line.ParsePipe` | code/sh.c:456-467 | agrees with the grammar, errors included |
| `Shell.Line.ParseLine` | code/sh.c:439-454 | terminates on every line and agrees with the grammar, errors included |
| `Shell.Line.NulTerminate` | code/sh.c:544-588 | NULs at exactly the ends of the recorded words |
| `Shell.StandsIff` | code/sh.c:360-437 | scanner and parser together find the tree for which the characters stand |
| `Shell.Line.ParseCmd` | code/sh.c:422-437 | a tree exactly if the characters are made of tokens that stand for it in the syntax; then every argument and file name reads back as its word |
| `Grep.FoundOne` | code/grep.c:93-94 | the language of a plain element, one character at a time |
| `Grep.FoundStar` | code/grep.c:89-90 | the language of a starred element |
| `Grep.PlainFound` | code/grep.c:93-94 | a pattern without special characters starts exactly the texts that start with it |
| `Grep.PlainAnchored` | code/grep.c:91-92 | with '$' behind it, it is the whole text |
| `Grep.DotsFound` | code/grep.c:93-94 | n dots start exactly the texts of n characters or more |
| `Grep.PlainStar` | code/grep.c:99-106 | c*d starts with some c, perhaps none, and then d |
| `Grep.MatchHere` | code/grep.c:85-96 | true exactly if a prefix of the text is a word of the pattern, all of it when the pattern ends in '$' |
| `Grep.MatchStar` | code/grep.c:99-106 | true exactly if some run of the character is followed by a match of the rest |
| `Grep.Match` | code/grep.c:72-82 | true exactly if some suffix starts a match, or the text does after '^' |

## Left out

- Device and boot code, assembly, trap frames, segments: hardware access; the disk is the one block step of memide.c, and a context switch is a step of the process table.
- Spinlocks and memory ordering: a critical section is one atomic step; sleep is split where it gives up the caller's lock.
- mkfs.c: its image is the initial state, assumed free of holes.
- Link counts in sysfile.c, exec, system-call arguments, growproc's caller, printing and user programs: plumbing or easy members.
- loaduvm, inituvm, clearpteu, uva2ka, copyout, dirlink, ialloc, readsb, fileread, pipealloc's file table: they would only add easy members.
- Panics: a run stops there. They are results of the methods (`NoBuffers`, `TooBig`, `Refused`, `OutOfBlocks`, `NoType`, `Panicked`, `Panic`) or preconditions that state the panic's guard (kfree's range, mappages' remap, copyuvm's missing page).
- FileSystem.Fs.Mount: iinit reads the superblock alone, and inodes are read from their blocks when they are first used; the model is handed blocks and inodes together.
- FileSystem.Fs.constructor: the root directory and the user programs that mkfs writes are not in it.
- InodeBlocks.PutInode: only size and addresses are stored; the words for type, device numbers and link count keep what is in the block.
- DurableFs.LogBlocks: the blocks of an operation go to the log at its end, not one by one as the operation changes them.
- DurableFs.FilesSurvive: that the transactions keep the disk valid is a hypothesis; `CrashRuns.Play` discharges it for the writes and truncations of the file system.
- FileSystem.Fs.Readi: the T_DEV branch, which calls the device, is not modelled.
- FileSystem.Fs.Writei: the T_DEV branch, which calls the device, is not modelled.
- FileSystem.Fs.Iupdate: on-disk inodes are a typed table of size and addresses, which `InodeBlocks.Flat` packs into their blocks; type, device numbers and link count stay as they are in the block. Directory entries are typed records.
- One device: blocks are those of ROOTDEV. The inode cache keeps device numbers.
- Commit is one call: other processes may hold buffers of blocks that are not logged all the while, but do not take or release any in between. At a logged block that a reader holds, bread would sleep first.
- Namex is one call up to its end or to the first lock it has to wait for.
- `FileSystem.Fs` works on the latest block contents that `BufferCache` shows to be what bread returns; its methods record which blocks they log, and `DurableFs` passes these to the log at the end of the operation, not one by one.
- CPUs: nothing bounds the number of RUNNING processes by NCPU, so runs are those of a machine with any number of processors.
- Process ids and counters other than the pipe's do not wrap; `nextpid` is a natural number.
- userinit's slot is the head of the initial free list; the kernel stack, page directory and file table of a process are not part of `Proc`.
- Redirections keep their operator: the open mode and the descriptor that parseredirs gives to each are not modelled.
- Pipe.KernelPipe.Close: kfree of a pipe whose ends are both shut is a result; that nobody uses it afterwards is the file table's business.
- Shell trees are values: parseexec fills the node it has already wrapped in redirections, which the model does by wrapping at the end.
- LogAdmission.Admission: the bound of MAXOPBLOCKS per operation is a hypothesis, because begin_op reserves that much and nothing enforces it.
- FileWrite.File.WriteChunk: the bound of 17 blocks is for one writer on a file system with one bitmap block, as the shipped image has.
- CrashRuns.Play: for file systems with one bitmap block and logs of more than 17 blocks, as mkfs makes them, so that every operation fits the log. A script stops before a write that needs more blocks than are free, where balloc panics.
- Starvation.StarvationIff: runs are orderly: a killed process does not yield or sleep again; yields of a killed process still inside the kernel, which code/trap.c:97-110 lets happen, are not counted as starvation.
- Wakeups: any running process may wake any channel that is not a process or a device; which kernel object a channel belongs to is not modelled.
- Umalloc.Allocator.Malloc: requests whose size in bytes does not fit sbrk's argument are excluded; `UnitsLargeEnough` says what the rounding does for all.
- Paths.Namex: requires that the inodes on the way have links or are held by somebody; one that is neither would be freed on disk by the walk's iput, which is not modelled.
