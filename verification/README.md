# A verified model of xv6 with kernel threads

xv6 is a small Unix-like teaching kernel. This version adds kernel threads to
its processes. The project models the parts of it whose correctness is hard to
see from the code, and proves what they are for:

- **The storage stack.** `log.c` is a redo log that commits groups of file
  system operations. `bio.c` is the buffer cache under it. `fs.c`, `file.c` and
  `sysfile.c` put byte files, directories and link counts on top. The main
  results are crash atomicity of commits under any number of crashes in
  recovery, whole-operation commits under any interleaving, the log budget,
  transparency of the cache, the byte-array meaning of `readi` and `writei`,
  single ownership of blocks, crashes in the middle of `filewrite`, and link
  counts.
- **Threads.** `proc.c` and `sleeplock.c` as step protocols, for any number of
  processes, threads and CPUs. The main results are mutual exclusion, the
  absence of lost wakeups and that a sleep lock can always still be had, the
  correspondence of running threads and CPUs, what each critical section does
  to every table entry, that `wait` and `kthread_join` never miss an exit, and
  that every kernel stack is freed exactly once.
- **Memory.** `umalloc.c`, the first-fit allocator of section 8.7 of The C
  Programming Language (second edition), with its ring of free blocks;
  `vm.c` and `kalloc.c`, with page conservation through every out-of-memory
  path.
- **Pipes, the shell's parser and grep.** `pipe.c` as a queue across the wrap of
  its counters; `sh.c` as a parser that accepts exactly a declarative grammar,
  with a print-and-reparse round trip; `grep.c` against a declarative meaning of
  its patterns.

Each component is a module of its own. Code that updates state in place is a
class, or a method with loops, proved against functions on values. The theorems
are about those functions, or are kept as invariants by every method. Protocols
are state machines whose steps are the stretches of code run under a spinlock,
and theorems about them hold for every state of every run.

`dafny verify dfyconfig.toml` checks the whole project.

| files | what they model |
|---|---|
| `Blocks`, `Ring`, `Bio` | blocks as bytes and words, the buffer ring, the cache |
| `LogDisk`, `LogProtocol`, `Log` | disk images of commit and recovery, the operations as a protocol, the code |
| `FsDisk`, `FsBlocks`, `FsBytes`, `FsTrunc`, `Fs` | bitmap and inode table, ownership of blocks, bytes of files, truncation, the code |
| `FsCrash` | `filewrite` run through the log, with crashes |
| `Links` | directories and link counts |
| `SleepLock`, `Threads`, `ThreadRuns`, `ThreadEffects`, `Ptable` | sleep locks, the process table and its invariant, the steps and runs, what each step does, the code |
| `HeapRing`, `Umalloc` | the free ring, the allocator |
| `PageTables`, `Vm`, `Kalloc` | page tables, address spaces, the page list |
| `Pipe`, `ShellGrammar`, `ShellSyntax`, `ShellPrint`, `Shell`, `Grep` | the pipe, the shell's tokens and grammar as functions, the grammar as a relation, printing, parsing, the matcher |

What the proofs found out about the code:

- The reservation guarantee of the log needs `log.size` above `LOGSIZE`.
  `mkfs.c:25` makes the two equal. With disk blocks enough to fill the log, the
  layouts without that margin are exactly those where an operation within its
  budget can hit the "too big a transaction" panic. Exactly those of them with
  two or more log blocks can be overrun, because `log_write` makes its test
  before it takes the lock. The commit then writes over the first block after
  the log, and recovery does not undo that. Every run that does not overrun the
  log is safe, whatever the layout.
- `log_write` makes that test before it looks for a block to absorb, so at
  `LOGSIZE` entries it also panics for a block already listed.
- `commit` needs a buffer that is not pinned, and `NBUF` equals `LOGSIZE`. With
  no buffer in use it panics exactly when all `NBUF` are pinned, and on a layout
  with room for `LOGSIZE` blocks three operations within their budgets pin them
  all.
- `malloc` returns too small a block for requests within 7 bytes of 2^32. If no
  free block fits, it asks `sbrk` to shrink the process for exactly the requests
  above 2^31 - 16 and up to 2^32 - 16 bytes. For exactly the eight sizes after
  those it asks `sbrk` for no bytes at all.
- A name added inside a directory that has been unlinked but is still in use
  leaks an inode, and so a file system of four inodes can lose one in five
  calls. No other `create` or `link` spoils the link counts.
- When `kalloc` fails, `allocproc` leaves a slot in use without a thread, and
  `kthread_create` leaves a gap among the threads and returns with
  `ptable.lock` held.
- `allocthread` does not look at `NTHREADS`, and a process that keeps creating
  threads gets to where the next one is written past the table.
- `kfree` of a page that is free already makes the free list endless.
- `>>` opens its file exactly as `>` does, so it overwrites.

## Model

| member | source | states |
|---|---|---|
| `Blocks.WordOfSetWord` | fs.c:391 | A 32-bit word stored in a block reads back, and every other word of the block is untouched |
| `Blocks.GetSetWords` | log.c:105-111 | A run of words stored in a block reads back as stored, and words outside the run are untouched |
| `Ring.PushFront` | bio.c:48-55 | The four assignments that link a buffer after the head turn a ring into a ring with that buffer first and every other buffer once, in the same order, both forwards and backwards |
| `Ring.Drop` | bio.c:131-132 | Unlinking a buffer leaves a ring of exactly the other buffers, in order |
| `Ring.MoveFirst` | bio.c:129-138 | Unlinking and relinking in brelse moves the buffer to the front and loses nothing |
| `Bio.Bcache.constructor` | bio.c:39-56 | After boot every buffer is on the ring, clean, unreferenced and unlocked |
| `Bio.Bcache.Binit` | bio.c:39-56 | The linking loop builds a ring holding each buffer exactly once |
| `Bio.Bcache.FindCached` | bio.c:69-76 | The scan finds the buffer of a block if and only if some buffer holds it |
| `Bio.Bcache.FindVictim` | bio.c:81-91 | The buffer recycled was released strictly before every other clean unreferenced one; none is found only if there is none |
| `Bio.Bcache.Bget` | bio.c:61-93 | Returns the cached buffer or recycles the least recently released one, with one more reference; panics exactly when the block is not cached and nothing can be recycled; keys stay unique and no pinned block is evicted |
| `Bio.Bcache.Iderw` | memide.c:38-60 | A dirty buffer goes to its disk block and only there, a clean one is read from it; the panics are exactly the three tests |
| `Bio.Bcache.Fill` | bio.c:96-106 | The caller of bread sees what an uncached block map would hold |
| `Bio.Bcache.Bread` | bio.c:96-106 | bread returns the block locked with the plain map's contents, changes no disk block, pins or unpins nothing, and for a block not cached takes the least recently released buffer |
| `Bio.Bcache.Bwrite` | bio.c:109-116 | One disk write of the buffer's block; afterwards disk and plain map hold the data and the block is not pinned |
| `Bio.Bcache.Edit` | log.c:205-212 | A holder may change its own locked buffer without disturbing anyone else's view |
| `Bio.Bcache.Pin` | log.c:230 | Publishing a change through log_write pins the block and updates the plain map at that block only |
| `Bio.Bcache.Unlock` | bio.c:121-127 | Releasing a buffer whose changes are published keeps the cache transparent |
| `Bio.Bcache.Unref` | bio.c:128-140 | The last release puts the buffer first on the ring with a release time above every other and changes no other release time; any other release changes neither order nor times |
| `Bio.Bcache.MoveToFront` | bio.c:131-137 | The relinking puts the buffer first, with the newest release time, and keeps the ring whole and ordered by time of last full release |
| `Bio.Bcache.Brelse` | bio.c:120-141 | brelse unlocks and unreferences that buffer only; the last release makes it the most recently released of all, any other leaves order and release times alone; every invariant of the cache is kept |
| `Bio.ReleaseThenRead` | bio.c:81-141 | A run: after the last brelse of a block, a bread of a block not cached leaves the released block in the cache whenever some other buffer could be recycled |
| `Bio.Released` | bio.c:129-138 | The relinked ring is again ordered by release time |
| `Bio.RestampNewest` | bio.c:129-138 | Moving a buffer to the front with a newer stamp keeps the list ordered by release |
| `Bio.WriteThrough` | bio.c:109-116 | Writing a buffer to disk and plain map together keeps all other buffers in step with both |
| `LogDisk.HeaderRoundTrip` | log.c:84-113 | read_head reads back exactly the list write_head stored, whatever the block held before |
| `LogDisk.Reinstall` | log.c:69-82 | Redo is idempotent: installing again from a half-installed disk gives what one full install gives |
| `LogDisk.RecoverKeepsView` | log.c:115-122 | No block write of recovery changes the file system the disk stands for, and a finished recovery leaves exactly that at home with an empty header |
| `LogDisk.CrashesKeepView` | log.c:115-122 | Any number of recoveries that crash part way leave the file system the disk stands for unchanged |
| `LogDisk.FillInvisible` | log.c:177-190 | Copying blocks into the log is invisible while the header is empty |
| `LogDisk.CommitPoint` | log.c:197 | The header write is the commit point: it switches the disk from the old file system to the new one |
| `LogDisk.CommitAtomic` | log.c:192-202 | After any number of block writes of a commit the disk stands for all of the old or all of the new file system, and after the last the log is empty |
| `LogDisk.CrashAtomicity` | log.c:69-202 | Crash anywhere in a commit and any number of times in recovery: the first recovery that completes leaves every home block old or every one new, with an empty header |
| `LogProtocol.StepKeeps` | log.c:125-233 | On any layout, every step of begin_op, log_write, end_op and the commit that leaves room for the list in the log keeps the protocol invariant: reservations, whole operations, and what the disk stands for |
| `LogProtocol.RunKeeps` | log.c:125-233 | On any layout, the whole invariant holds at the end of every interleaving that does not overrun the log |
| `LogProtocol.RunDisciplined` | log.c:125-233 | On any layout and in every interleaving, overrun or not, the list plus all unspent reservations fits LOGSIZE, and each operation's log_writes are all before or all after the commit point |
| `LogProtocol.BigLogHolds` | log.c:132-136 | With log.size above LOGSIZE no run overruns the log |
| `LogProtocol.WholeOperations` | log.c:125-202 | On any layout, crash in any state of any run that does not overrun the log and recover through further crashes: the home blocks are the effect of a prefix of the log_writes that has all or none of each operation's, and only of ended operations |
| `LogProtocol.EndedIsDurable` | log.c:145-174 | On any layout, once the last running operation's end_op has returned in a run that does not overrun the log, every log_write so far survives any crash |
| `LogProtocol.BigLogIsSafe` | log.c:125-202 | With log.size above LOGSIZE, whole operations and durability hold of every run of operations that keep to their budgets |
| `LogProtocol.PanicsExactly` | log.c:125-222 | On any layout and in every run: no operation runs during a commit, end_op never panics, the list plus all promises fits LOGSIZE, and log_write panics exactly when the list has LOGSIZE blocks or log.size - 1 |
| `LogProtocol.BeginsExactly` | log.c:125-141 | In every run begin_op goes ahead exactly when no commit runs and the list plus MAXOPBLOCKS for each operation and the new one is at most LOGSIZE, and then only the new operation is added |
| `LogProtocol.WritesExactly` | log.c:213-233 | In every run log_write past its tests goes ahead exactly for a block outside the log that is listed already or that its operation has budget for; it shows the new contents to the kernel and not to the disk, and lists the block once |
| `LogProtocol.EndsExactly` | log.c:145-170 | In every run end_op goes ahead, and starts a commit exactly when its operation is the last one |
| `LogProtocol.CommitsExactly` | log.c:192-202 | In every run that does not overrun the log a commit makes its 2n + 2 block writes and is done exactly then, with the list empty |
| `LogProtocol.OnlyFullLogPanics` | log.c:132-136 | With log.size above LOGSIZE, log_write panics exactly when the log holds LOGSIZE blocks, and then no running operation has budget left |
| `LogProtocol.TightLogPanics` | log.c:218-219 | An operation within its budget can hit the panic exactly on the layouts with log.size at most LOGSIZE, such as the one mkfs makes |
| `LogProtocol.AbsorbedWritePanics` | log.c:218-227 | The size test comes before absorption: an operation with its budget used up panics even when it logs a block already in the log |
| `LogProtocol.RaceRuns` | log.c:218-222 | On every layout with log.size from 2 to LOGSIZE, two operations that both make the size test before either takes the lock fill the list beyond the log |
| `LogProtocol.OverrunsExactly` | log.c:218-222 | Some run overruns the log region exactly on the layouts with log.size from 2 to LOGSIZE |
| `LogProtocol.OverrunCorrupts` | log.c:177-190 | On every such layout a crash after the overrun leaves the first block after the log with contents that no log_write gave it: the recovered disk is the effect of no prefix of the log_writes |
| `LogProtocol.UnspentOf` | log.c:132-136 | The space promised to running operations is the sum of what each may still log |
| `Log.Copy` | log.c:178-189 | One turn of write_log or install_trans writes one block, from home to log or back, and touches no other |
| `Log.FillHeader` | log.c:101-113 | The loop of write_head stores exactly the header for the list |
| `Log.CopyHeader` | log.c:85-96 | The loop of read_head recovers exactly the list in the block |
| `Log.AbsorbOnce` | log.c:224-229 | Absorption lists each block once and adds exactly that block |
| `Log.CommitTraceViews` | log.c:192-202 | Every disk image on the way of a commit stands for the old or the new file system, switching at the header write |
| `Log.RecoverTraceViews` | log.c:115-122 | No disk image on the way of a recovery changes the file system |
| `Log.Log.WriteLog` | log.c:177-190 | write_log writes the listed blocks to the log one disk image at a time; it gets through if a buffer can be recycled, and panics before its first write if every buffer is pinned |
| `Log.Log.WriteHead` | log.c:101-113 | write_head is one disk write that makes the list durable |
| `Log.Log.InstallTrans` | log.c:69-82 | install_trans copies each logged block home and unpins it |
| `Log.Log.Commit` | log.c:192-202 | Each disk image of a commit stands for the file system before or after the transaction; at the end the disk holds what the kernel sees, the log is empty and nothing is pinned. Readers may hold other blocks meanwhile. With no buffer in use it panics exactly when there is something to commit and as many blocks are pinned as there are buffers |
| `Log.Log.ReadHead` | log.c:85-96 | read_head loads the on-disk list without changing disk or cache contents |
| `Log.Log.Recover` | log.c:115-122 | recover_from_log leaves at home exactly the file system the disk stood for, through images that all stand for it |
| `Log.Log.LogWrite` | log.c:213-233 | log_write publishes and pins the block and lists it at the end unless it is listed already, or panics exactly when the list has LOGSIZE blocks or log.size - 1 or no operation is outstanding; dirty buffers are exactly the listed blocks |
| `Log.Log.TryBegin` | log.c:125-141 | begin_op is admitted exactly when no commit runs and the list plus a whole reservation for every operation, the new one included, is at most LOGSIZE |
| `Log.Log.EndOp` | log.c:145-174 | The last end_op commits: each disk image on the way stands for the file system before or after, and in the end everything the kernel sees is on disk and the list is empty, or it panics as commit does; any other end_op leaves list, buffers and disk alone, whatever the other operations hold |
| `Log.SpareExactly` | bio.c:81-93 | With no buffer in use, one can be recycled exactly if fewer blocks are pinned than there are buffers |
| `Log.FullCachePanics` | param.h:10-12 | With NBUF buffers and log.size above LOGSIZE, three operations that use up their reservations make the last end_op panic for want of a buffer |
| `FsDisk.BitOfSetBit` | fs.c:66-68 | Setting or clearing one bit of a byte leaves the other bits |
| `FsDisk.UsedOfMark` | fs.c:57-96 | The bitmap is a set of block numbers: marking a block changes its membership, no other's, and nothing outside the bitmap |
| `FsDisk.InodeRoundTrip` | fs.c:222-237 | iupdate stores the inode so that ilock reads it back, and leaves every other inode of the table alone |
| `FsBlocks.AllocOk` | fs.c:56-78 | Allocating a block makes it in use and zero, and changes no owned block and no ownership |
| `FsBlocks.LinkOk` | fs.c:374-401 | Recording a fresh block in the next pointer keeps every block owned by at most one pointer and every owned block in use |
| `FsBlocks.ExtendOk` | fs.c:374-401 | balloc and the pointer store together keep ownership exact and add exactly one block to the file |
| `FsBlocks.FreeAlloc` | fs.c:56-78 | balloc leaves exactly one free block fewer in the bitmap |
| `FsBlocks.OwnedAddr` | fs.c:374-401 | A pointer in use holds a data block that is marked in use and owned by that pointer alone |
| `FsBytes.WritingStep` | fs.c:499-506 | One turn of writei's loop changes exactly the bytes it writes and no other byte of any file |
| `FsBytes.ChunkBudget` | file.c:125-133 | A chunk of filewrite logs at most MAXOPBLOCKS blocks at any offset, even if each allocation touches a bitmap block of its own |
| `FsBytes.KeptFiles` | fs.c:483-512 | A file other than the one written keeps its inode and its bytes |
| `FsBytes.WriteDone` | fs.c:483-512 | A finished writei overwrites exactly its bytes, grows the size as needed, keeps the inode's type, device numbers and link count, leaves no holes, and the inode table on disk agrees with memory |
| `FsBytes.EffectThen` | file.c:133-152 | Two consecutive chunks have the effect of one write of both |
| `FsBytes.FormattedIsWhole` | mkfs.c:110-115 | A zeroed disk with its metadata blocks marked in use and no file holding a block satisfies every invariant of the file system |
| `FsTrunc.AllAddrsOwned` | fs.c:409-436 | The blocks itrunc visits are exactly the blocks the inode owns, its indirect block included |
| `FsTrunc.NotYet` | fs.c:409-436 | No block is met twice by itrunc's loops |
| `FsTrunc.TruncDone` | fs.c:409-436 | After itrunc the file is empty, exactly its blocks are free again, and every other file is as it was |
| `Fs.FileSys.FindFree` | fs.c:56-72 | balloc's nested scan finds the lowest free block, or there is none |
| `Fs.FileSys.Balloc` | fs.c:56-78 | balloc marks one free block in use and zeroes it, or panics exactly when all are used |
| `Fs.FileSys.Bmap` | fs.c:374-401 | bmap returns the block of an existing file block without allocating, or allocates exactly the next one, indirect block included; it panics exactly when the bitmap has fewer free blocks than that takes |
| `Fs.FileSys.BmapIndirect` | fs.c:383-398 | The indirect half of bmap, with the indirect block allocated exactly when the file first needs it, and the same exact panic |
| `Fs.FileSys.WriteTurn` | fs.c:499-506 | One turn of writei's loop puts its bytes in the right block |
| `Fs.FileSys.WriteLoop` | fs.c:499-506 | The loop writes exactly the given bytes and logs no more blocks than the tally allows; it panics exactly when the blocks to be added outnumber the free ones, and otherwise takes exactly those from the free ones |
| `Fs.FileSys.Iupdate` | fs.c:222-237 | iupdate stores the inode in its slot of the inode table and logs that block |
| `Fs.FileSys.Writei` | fs.c:483-512 | writei refuses exactly the bad offsets and sizes and panics exactly when the file's new blocks, indirect block included, outnumber the free ones; otherwise it overwrites exactly [off, off+n), growing the size to the maximum, keeping type and link count and taking exactly those blocks, gives every block it changes to log_write, and a chunk-sized write logs at most MAXOPBLOCKS blocks |
| `Fs.FileSys.SetSize` | fs.c:508-511 | The size is stored, in memory and on disk, exactly when the file has grown, and no other field of any inode changes |
| `Fs.FileSys.Readi` | fs.c:454-477 | readi returns exactly the requested slice cut at the end of file, and changes and allocates nothing |
| `Fs.FileSys.Bfree` | fs.c:81-96 | bfree clears the bit of a used block, gives the bitmap block to log_write, and panics exactly on a free one |
| `Fs.FileSys.Itrunc` | fs.c:409-436 | itrunc never hits the freeing-free-block panic, frees exactly the inode's blocks, empties the file, changes no other field of the inode and gives every block it changes to log_write |
| `Fs.FileSys.FileWrite` | file.c:118-156 | With no other writer between the chunks, filewrite writes the whole buffer as one overwrite that keeps type and link count, in transactions each within MAXOPBLOCKS that log every block they change, or stops with a prefix written; after m transactions exactly the first m chunks are written; it panics exactly when the free blocks do not cover the chunks that fit the maximum file size |
| `Fs.FileSys.WriteChunk` | file.c:133-152 | One turn of the loop writes the next chunk in one transaction, or is refused or panics exactly as the whole would |
| `FsCrash.StepLater` | log.c:125-233 | An operation that has ended logs nothing more |
| `FsCrash.ChunkRun` | file.c:133-152 | The blocks of one chunk, in any order, go through begin_op, log_write, end_op and the commit on any layout with more than MAXOPBLOCKS log blocks, and turn what the kernel sees into the next image |
| `FsCrash.CutBetween` | file.c:133-152 | A cut of the log_writes that divides no operation falls between two chunks |
| `FsCrash.WholeChunks` | file.c:133-152 | Stop a run of chunks after any number of steps and recover through further crashes: the disk is the one after a whole number of chunks, and after all of them once the last commit is done |
| `FsCrash.FileWriteCrash` | file.c:118-156 | A crash anywhere in filewrite leaves a file system with every invariant in which the file has exactly the bytes of some number of whole chunks, with its type and link count |
| `Links.RootOnlyHolds` | mkfs.c:117-128 | A tree with only the root directory has the right link counts |
| `Links.BirthKeeps` | sysfile.c:259-264 | Allocating an inode that no entry names keeps all link counts right |
| `Links.AddKeeps` | sysfile.c:119-165 | A new name in a directory still in the tree keeps nlink equal to names plus subdirectories, and names unique |
| `Links.RemoveKeeps` | sysfile.c:185-239 | Removing a name keeps the counts right and leaves an unlinked directory empty |
| `Links.FreeKeeps` | fs.c:333-353 | An inode with no links is named by no live entry, so freeing it breaks nothing |
| `Links.NamesAgree` | fs.c:517-521 | Two names agree up to DIRSIZ characters exactly when strncmp of DIRSIZ characters finds them equal, also when one of them was cut by strncpy |
| `Links.LinkedByCount` | fs.c:333-353 | A directory is in the tree exactly when its link count is positive |
| `Links.UnlinkedAddLeaks` | sysfile.c:119-165 | A name added in an unlinked directory always leaks: a file, new or linked, keeps one link more than it has names once the directory is freed, and a new directory gives its nameless parent a link that keeps it from ever being freed |
| `Links.FileLost` | sysfile.c:185-284 | A run from a new file system of four or more inodes, through mkdir, unlink, create and two iputs, to a file with a link, no name and no reference |
| `Links.UnlinkedInUse` | sysfile.c:185-284 | A run to an unlinked directory that is still referenced, with all invariants holding |
| `Links.Tree.DirLookup` | fs.c:526-549 | Finds the first live entry for the DIRSIZ-truncated name if there is one |
| `Links.Tree.DirLink` | fs.c:553-579 | Puts the entry in the first free slot, or at the end, and changes nothing else, or fails exactly when the name is taken |
| `Links.Tree.FindUnused` | fs.c:202-213 | ialloc's scan finds the first free inode or there is none |
| `Links.Tree.IsDirEmpty` | sysfile.c:169-181 | True exactly when no entry after the dots is live |
| `Links.Tree.Create` | sysfile.c:241-284 | create opens an existing file, or gives the first free inode one link, one reference, its dots if it is a directory, and its name in the parent's first free slot, with a link more for the parent if it is a directory, and no other inode changes; it fails exactly when the name is taken and not by a file to be opened as one, and panics exactly when no inode is free; the counts stay right exactly unless the parent has no links |
| `Links.Tree.Grow` | sysfile.c:259-283 | The stores of create in source order leave exactly the new inode, the parent's new entry and its extra link |
| `Links.Tree.LinkBegin` | sysfile.c:127-142 | sys_link refuses directories and otherwise counts a link before the name exists |
| `Links.Tree.LinkEnd` | sysfile.c:144-164 | The rest of sys_link adds the name or takes the link back; the counts stay right exactly unless the name went into a directory without links |
| `Links.Tree.Unlink` | sysfile.c:185-239 | unlink never panics and fails exactly for dots, missing names and non-empty directories; otherwise it clears that slot, takes a link from the parent if the inode is a directory, and takes a link from the inode, keeping its references, or frees it exactly when that was its last link and nothing refers to it; no other inode changes |
| `Links.Tree.Shrink` | sysfile.c:218-231 | The stores of unlink in source order change exactly the parent and the inode, and keep the counts right |
| `Links.Tree.Iput` | fs.c:333-353 | iput frees an inode only when no live entry names it |
| `SleepLock.SpinKeeps` | proc.c:538-572 | Each spinlock has at most one holder at every point of acquiresleep, releasesleep, sleep and wakeup |
| `SleepLock.ExclusionKeeps` | sleeplock.c:23-42 | Every step keeps at most one owner, and locked says exactly whether there is one |
| `SleepLock.WakeupKeeps` | proc.c:538-597 | Every step, kill included, keeps that a sleeper can count on a wakeup |
| `SleepLock.StepKeeps` | sleeplock.c:23-42 | The invariant holds after every step of any thread |
| `SleepLock.RunKeeps` | sleeplock.c:23-42 | The invariant holds in every state of every interleaving of any number of threads |
| `SleepLock.MutualExclusion` | sleeplock.c:23-42 | In every run at most one thread is between acquiresleep and releasesleep |
| `SleepLock.SleepersAwaited` | sleeplock.c:23-42 | In every run a thread asleep on the lock waits for another that holds it, or that has cleared it and has its wakeup scan still to do |
| `SleepLock.CanAcquire` | sleeplock.c:23-42 | In every state of every run a thread in acquiresleep, asleep or not, can still come to hold the lock, by steps of threads already in their calls and a release by the holder |
| `Threads.WokenKeeps` | proc.c:578-589 | Waking any set of sleepers keeps the whole invariant |
| `Threads.MovedKeeps` | proc.c:454-513 | Putting a thread on a CPU, taking it off, or letting it go on keeps the whole invariant |
| `Threads.AllotedKeeps` | proc.c:99-132 | A new thread on a fresh stack keeps the whole invariant |
| `Threads.DeliveredKeeps` | proc.c:257-275 | Making a forked process runnable under its parent keeps the whole invariant |
| `Threads.ReapingKeeps` | proc.c:390-410 | Reaping a zombie process keeps the whole invariant |
| `Threads.ReparentedKeeps` | proc.c:357-363 | Passing children to init keeps the invariant provided init is not asleep in wait when it is given a zombie |
| `Threads.ZombiedKeeps` | proc.c:364-368 | The end of exit_process keeps the whole invariant |
| `ThreadRuns.WakeWakesAll` | proc.c:578-589 | After wakeup1 no thread sleeps on the channel, although it scans only below t_num |
| `ThreadRuns.LiveOthers` | proc.c:308-320 | exit_thread's count is one exactly when the caller is the last live thread of its process, and never zero |
| `ThreadRuns.AbandonKeeps` | proc.c:351-363 | After exit_process's wakeups and reparenting the process has no children and nobody sleeps in wait for it |
| `ThreadRuns.StepKeeps` | proc.c:99-713 | Every critical section keeps the whole invariant |
| `ThreadRuns.InitHolds` | proc.c:166-201 | The state after userinit satisfies the invariant |
| `ThreadRuns.Boots` | proc.c:166-201 | With any number of slots and CPUs the tables after userinit are a starting state, so the invariant is not vacuous |
| `ThreadRuns.NextSlot` | proc.c:99-101 | In every run the slot of a process's next thread is in the table exactly while t_num is below NTHREADS |
| `ThreadRuns.CreatesRun` | proc.c:667-680 | Repeated kthread_create calls take t_num up to NTHREADS, with a page for each stack |
| `ThreadRuns.ThreadsOverrun` | proc.c:99-101 | From the state after userinit some run reaches t_num equal to NTHREADS, where the next kthread_create writes past the table |
| `ThreadRuns.StateMachine` | proc.c:99-713 | A thread changes state only along the arrows of the thread state machine, each taken only by its own critical sections |
| `ThreadRuns.Parentage` | proc.c:258-394 | A process's parent changes only when fork hands over the child, when its parent exits and init takes over, and when wait reaps it |
| `ThreadRuns.KillMarks` | proc.c:603-624 | kill reaches every live thread of the process and leaves none of them asleep |
| `ThreadRuns.RunKeeps` | proc.c:99-713 | The invariant holds in every state of every run, for any number of processes and CPUs |
| `ThreadRuns.RunningOneToOne` | proc.c:450-475 | RUNNING threads and CPUs with a current thread correspond one to one |
| `ThreadRuns.WaitNeverMisses` | proc.c:383-424 | No thread sleeps in wait while a child is a zombie, even one inherited by init, and every zombie has a parent in use |
| `ThreadRuns.JoinNeverMisses` | proc.c:694-713 | No thread sleeps in kthread_join on a thread that has exited, exits through exit_process included, and a join target is never an unused thread |
| `ThreadRuns.ZombiesAreDead` | proc.c:303-329 | A zombie process has only dead threads, a process in use has a live one, and exit_thread's panic is unreachable |
| `ThreadRuns.OnlyReapingTakes` | proc.c:386-412 | ZOMBIE_T is left, and a stack given up, only by wait's reaping of a zombie thread |
| `ThreadRuns.StackFreedOnce` | proc.c:397-407 | A kernel stack stops being one only when wait frees it; its owner was a zombie on no CPU and owns it no more; pages are conserved |
| `ThreadEffects.ScheduleEffect` | proc.c:454-475 | The scheduler can pick exactly a RUNNABLE thread on an idle CPU, and changes that thread and CPU only |
| `ThreadEffects.YieldEffect` | proc.c:507-513 | yield makes the caller RUNNABLE, frees its CPU and changes nothing else |
| `ThreadEffects.SleepEffect` | proc.c:538-572 | sleep leaves the caller asleep on the given channel and off its CPU, and changes nothing else |
| `ThreadEffects.SleepThenWakeup` | proc.c:556-597 | A sleeper is RUNNABLE after a wakeup of its channel |
| `ThreadEffects.WakeupEffect` | proc.c:578-597 | wakeup makes exactly the threads asleep on the channel RUNNABLE and changes nothing else |
| `ThreadEffects.KillEffect` | proc.c:603-624 | kill marks every thread of the process, makes its sleepers RUNNABLE and changes no thread of any other process |
| `ThreadEffects.ExitEffect` | proc.c:284-300 | exit by a thread not killed marks the threads of its own process, wakes its sleepers and changes nothing else |
| `ThreadEffects.CountsOthers` | proc.c:308-312 | exit_thread's count is one more than the number of other live threads of the process |
| `ThreadEffects.ExitThreadEffect` | proc.c:303-329 | The last live thread goes on to exit_process; any other becomes a zombie, wakes exactly those who join it and, if it leaves one thread, those asleep on the process |
| `ThreadEffects.ExitProcessEffect` | proc.c:331-368 | exit_process wakes exactly the parent's waiters, and init's if a child is a zombie, gives every child to init, and makes exactly its process and thread zombies |
| `ThreadEffects.WaitCollects` | proc.c:386-412 | With a zombie child wait takes the first: its slot and its dead threads become unused, exactly their stacks become free, and nothing else changes |
| `ThreadEffects.WaitWaits` | proc.c:414-424 | Without one wait gives up exactly when the caller has no child or has been killed, and otherwise sleeps on its own process |
| `ThreadEffects.ForkEffect` | proc.c:140-161 | fork takes the first unused slot and a free page for the stack of its first thread, which is an embryo |
| `ThreadEffects.ForkedEffect` | proc.c:257-275 | The rest of fork gives the child its parent and makes its thread RUNNABLE |
| `ThreadEffects.CreateEffect` | proc.c:99-132 | kthread_create adds one RUNNABLE thread with the next id on a free page, possible exactly below NTHREADS |
| `ThreadEffects.JoinEffect` | proc.c:704-710 | kthread_join returns exactly when the target has exited and otherwise sleeps on it |
| `Ptable.Ptable.Wakeup1` | proc.c:578-589 | The double loop makes exactly the threads below t_num that sleep on the channel RUNNABLE and changes no other thread |
| `Ptable.Ptable.InterruptAll` | proc.c:611-617 | The loop of kill and exit marks every thread of the process, makes exactly its sleepers RUNNABLE, and changes no thread of another process |
| `Ptable.Ptable.CountLive` | proc.c:308-312 | Counts the threads that are neither zombie nor unused |
| `Ptable.Ptable.ExitThread` | proc.c:303-329 | exit_thread takes one step of the protocol and keeps the invariant |
| `Ptable.Ptable.PassChildren` | proc.c:357-363 | The loop gives every child to init and wakes init exactly if one of them is a zombie |
| `Ptable.Ptable.ExitProcess` | proc.c:351-368 | exit_process takes one step of the protocol and keeps the invariant |
| `Ptable.Ptable.Exit` | proc.c:284-300 | exit by a thread not killed marks the threads of its own process, wakes its sleepers and touches no other process; a killed one goes on to exit_thread; the invariant is kept |
| `Ptable.Ptable.Kill` | proc.c:603-624 | kill on a process slot marks its threads, wakes its sleepers, changes no thread of another process, and keeps the invariant |
| `Ptable.Ptable.ReapThreads` | proc.c:397-409 | The loop frees the stacks of exactly the dead threads of the process |
| `Ptable.Ptable.Wait` | proc.c:383-424 | One turn of wait collects the first zombie child if there is one, gives up exactly when childless or killed, and otherwise sleeps |
| `Ptable.Ptable.Fork` | proc.c:140-161 | allocproc's scan takes the first unused slot; it fails exactly when there is none or kalloc fails, and the invariant is kept exactly unless kalloc fails for a slot found, which then is in use with one thread that is not |
| `Ptable.Ptable.AllocThread` | proc.c:99-132 | allocthread makes the next thread of the process on the stack kalloc gave, with the next id, without a stack leaves an unused thread counted in t_num, changes nothing else, and leaves the table exactly when t_num is NTHREADS |
| `Ptable.Ptable.KthreadCreate` | proc.c:667-680 | Writes past the table exactly when the process has NTHREADS threads; otherwise it returns an id that named no thread in use before and keeps the invariant exactly when kalloc succeeds, and without a stack returns 0 with ptable.lock held and a gap among the threads |
| `Ptable.Ptable.FindTid` | proc.c:697-699 | The search finds the thread with the id if and only if the id is between 1 and t_num |
| `Ptable.Ptable.Join` | proc.c:704-710 | One turn of kthread_join returns exactly when the target has exited, and otherwise sleeps on it |
| `Ptable.Ptable.constructor` | proc.c:170-203 | The tables after userinit satisfy the invariant that every method keeps |
| `HeapRing.OneBlock` | umalloc.c:25-90 | Every unit obtained from sbrk lies in exactly one block, free or allocated |
| `HeapRing.AbsorbNext` | umalloc.c:33-35 | Taking in the block above keeps ring, disjointness and coverage |
| `HeapRing.MergePrev` | umalloc.c:38-40 | Merging into the block below keeps ring, disjointness, coverage and full coalescing |
| `HeapRing.LinkIn` | umalloc.c:36-42 | Linking a block that touches no neighbour keeps the ring address-ordered and coalesced |
| `HeapRing.TakeWhole` | umalloc.c:76-77 | Unlinking an exactly fitting block keeps ring and coverage |
| `HeapRing.TakeTail` | umalloc.c:79-81 | Carving the tail of a larger block keeps ring and coverage |
| `HeapRing.NewCore` | umalloc.c:54-58 | A fresh chunk from sbrk adds exactly its units |
| `Umalloc.Enough` | umalloc.c:69 | The block holds the requested bytes, with less than a unit to spare, exactly when the rounding does not wrap, that is up to 2^32 - 8 bytes; above that it is a header alone |
| `Umalloc.SbrkCountExactly` | umalloc.c:52-54 | sbrk gets a negative count exactly for requests above 2^31 - 16 up to 2^32 - 16 bytes and zero exactly for those above that up to 2^32 - 8; for all others it gets the least whole number of units that holds the request and a header, but at least 4096 units |
| `Umalloc.FreeKeeps` | umalloc.c:33-43 | The relinking of free, in all four merge cases, keeps the ring whole, fully coalesced and losing nothing |
| `Umalloc.GapTest` | umalloc.c:30-32 | free's two loop tests stop exactly at the header after which the block belongs |
| `Umalloc.GoesOn` | umalloc.c:30-32 | Following ptr meets each free header once before it returns to the start |
| `Umalloc.Heap.Search` | umalloc.c:30-32 | The loop of free terminates at the right gap wherever it starts |
| `Umalloc.Heap.Free` | umalloc.c:24-44 | free turns exactly that allocation back into free space, coalesced on both sides |
| `Umalloc.Heap.PlaceFreed` | umalloc.c:33-42 | The assignments of free write exactly the relinked headers |
| `Umalloc.Heap.Morecore` | umalloc.c:46-61 | A granted chunk becomes free space with a block that fits; a refusal changes nothing |
| `Umalloc.Heap.Malloc` | umalloc.c:63-90 | For every request, malloc terminates; it calls sbrk at most once and exactly when no free block fits, with a count other than meant exactly when SbrkCountExactly says so, and fails exactly when sbrk refuses; otherwise it returns a fresh block of the computed size, the end of the first block that fits going round from freep |
| `Umalloc.Heap.Carve` | umalloc.c:75-84 | Taking the units from the found block keeps every invariant and overlaps no live allocation |
| `PageTables.NewTableKeeps` | vm.c:40-51 | A new page table page changes no mapping and is owned by that directory entry alone |
| `PageTables.MapKeeps` | vm.c:66-70 | Mapping a user page makes its frame owned by exactly that page; a kernel mapping owns nothing |
| `PageTables.DropRangeKeeps` | vm.c:249-271 | Unmapping a range removes exactly those mappings and frees exactly their frames |
| `PageTables.SkipTable` | vm.c:257-260 | Skipping to the next directory entry where there is no table does what going page by page would |
| `PageTables.OthersKeep` | vm.c:35-77 | An address space does not see changes to frames outside it |
| `Vm.KernelMapFits` | vm.c:107-112 | The kernel's four stretches lie above the user part and do not overlap |
| `Vm.UserEmpty` | vm.c:116-133 | The kernel's mappings leave the user part unmapped |
| `Vm.KernelPart` | vm.c:101-112 | Every page of the kernel part: memory up to PHYSTOP at KERNBASE, writable but for the kernel's text, the devices at their own addresses, and nothing else |
| `Vm.CopyDisjoint` | vm.c:306-334 | Parent and child share no frame, and the parent is unchanged |
| `Vm.Vm.constructor` | kalloc.c:38-44 | Every page is free and full of junk |
| `Vm.Vm.Walk` | vm.c:35-53 | walkpgdir finds or makes the page table of an address without changing any mapping, or fails with nothing changed |
| `Vm.Vm.MapPage` | vm.c:65-75 | One turn of mappages adds exactly one mapping or changes nothing |
| `Vm.Vm.Mappages` | vm.c:59-77 | mappages maps each page of the range to the matching frame and nothing else; on failure only pages of the range are affected |
| `Vm.Vm.Setupkvm` | vm.c:116-133 | Returns a directory with exactly the kernel's mappings, made of pages that were free, or gives every page back |
| `Vm.Vm.Allocuvm` | vm.c:216-242 | Grows by exactly the new zeroed writable pages, or, with kalloc failing anywhere, leaves every mapping as it was; frames only move between the space and the free list |
| `Vm.Vm.Deallocuvm` | vm.c:249-271 | The loop with its directory skip equals the page-by-page loop |
| `Vm.Vm.DropOne` | vm.c:261-268 | Frees the frame of a mapped page and clears its entry |
| `Vm.Vm.Freevm` | vm.c:276-289 | Every frame and page-table page of the space goes back to the free list, each once, and nothing else changes |
| `Vm.Vm.Copyuvm` | vm.c:306-334 | The copy has equal contents and permissions on frames that were free, or every page is given back |
| `Vm.Vm.CopyOne` | vm.c:314-328 | One turn copies one page, or gives back what it took |
| `Kalloc.ChainKept` | kalloc.c:72-74 | Writing the link of a page that is not on the list leaves the list alone |
| `Kalloc.NeverEnds` | kalloc.c:72-74 | After a page on the list is linked again no walk along the list ends |
| `Kalloc.Kmem.constructor` | kalloc.c:31-36 | Before the first freerange the list is empty |
| `Kalloc.Kmem.Kfree` | kalloc.c:60-77 | kfree panics exactly on an address that is no page of the memory, puts a page on top of the list and keeps the rest; a page already on the list turns it into one that never ends |
| `Kalloc.Kmem.Kalloc` | kalloc.c:83-95 | kalloc takes the top page off the list, and fails exactly when it is empty |
| `Kalloc.Kmem.Freerange` | kalloc.c:47-53 | Every whole page of the range goes on the list, once, and no other, or one of them is outside the memory and kfree panics |
| `Pipe.FullExactly` | pipe.c:85 | The test on the wrapped counters is true exactly when PIPESIZE bytes are in flight |
| `Pipe.EmptyExactly` | pipe.c:106-114 | The counters are equal exactly when everything written has been read |
| `Pipe.PutKeeps` | pipe.c:93 | Writing a byte overwrites no byte in flight, also across the wrap of the counters |
| `Pipe.GetKeeps` | pipe.c:116 | Reading delivers the oldest byte not yet read |
| `Pipe.RunKeeps` | pipe.c:79-121 | The ring invariant holds after every interleaving of reads and writes |
| `Pipe.Fifo` | pipe.c:79-121 | In every interleaving the bytes delivered are a prefix of the bytes written and at most PIPESIZE are in flight |
| `Pipe.Pipe.constructor` | pipe.c:33-37 | A new pipe is empty and open at both ends |
| `Pipe.Pipe.PipeWrite` | pipe.c:79-98 | A stretch of pipewrite accepts exactly the next bytes of the buffer, in order, and stops only when done or full |
| `Pipe.Pipe.PipeRead` | pipe.c:101-121 | A stretch of piperead delivers the next bytes in order, up to n or until the pipe is empty |
| `ShellPrint.RoundTrip` | sh.c:328-446 | Printing any command with parentheses, whichever of the three arrows it redirects with, and parsing the line gives the same command, each file to be opened with the mode and descriptor of its arrow |
| `ShellPrint.AppendOverwrites` | sh.c:385-395 | Two lines that differ only in > and >> are read as the same command: the files are opened in the same mode, and nothing is appended |
| `ShellPrint.PrintedLine` | sh.c:345-359 | A printed command is parsed up to its end wherever the line or the block ends after it |
| `ShellPrint.PrintedWords` | sh.c:431-442 | Words separated by blanks are read back as those words, in order |
| `ShellGrammar.GetToken` | sh.c:266-308 | A token lies within the line and a token other than the end moves the cursor; a word token is maximal |
| `ShellSyntax.ParsesExactly` | sh.c:328-446 | The shell reads a line as a command exactly if a declarative grammar makes the line that command: lists over backgrounds over pipes over simple commands and blocks, words and redirections in any order with the last redirection outermost, fewer than MAXARGS words, and O_RDONLY on 0 for < but O_WRONLY and O_CREATE on 1 for > and >> |
| `ShellSyntax.Unambiguous` | sh.c:328-446 | No line is two commands of the grammar |
| `Shell.LineGood` | sh.c:345-446 | Every argument and file of a parsed command is a whole word of the line, and no command has more than MAXARGS - 1 arguments |
| `Shell.NoEndInside` | sh.c:450-493 | No token ends inside another |
| `Shell.CutExactly` | sh.c:450-493 | After nulterminate each argument and file name, read as a C string, is exactly its token |
| `Shell.NulTerminate` | sh.c:450-493 | nulterminate writes NUL at exactly the ends of the command's tokens |
| `Shell.Parser.Gettoken` | sh.c:266-308 | The scanning loops find the token the grammar defines |
| `Shell.Parser.PeekFor` | sh.c:311-320 | Skips blanks and tells whether the next character is one of the given |
| `Shell.Parser.ParseRedirs` | sh.c:375-397 | The loop collects the redirections of the grammar, or panics when the grammar has none |
| `Shell.Parser.ParseExec` | sh.c:416-446 | Terminates by consumed input and agrees with the grammar, panics included |
| `Shell.Parser.ParseBlock` | sh.c:400-413 | Terminates by consumed input and agrees with the grammar, panics included |
| `Shell.Parser.ParsePipe` | sh.c:362-372 | Terminates by consumed input and agrees with the grammar, panics included |
| `Shell.Parser.ParseLine` | sh.c:345-359 | Terminates by consumed input and agrees with the grammar, panics included |
| `Shell.ParseWhole` | sh.c:328-342 | parsecmd gives exactly the command that the declarative grammar makes of the whole line, or panics when there is none, and leaves each of its words as a C string in the buffer |
| `Grep.MatchesOne` | grep.c:93-94 | A pattern that begins with one character matches exactly when the text does and the rest matches the rest |
| `Grep.MatchesStar` | grep.c:99-106 | A starred character matches exactly when some run of it is followed by a match of the rest |
| `Grep.MatchesEnd` | grep.c:91-92 | A final dollar matches exactly the empty rest |
| `Grep.MatchHere` | grep.c:85-96 | Returns 1 exactly when some prefix of the text is in the pattern's language |
| `Grep.MatchStar` | grep.c:99-106 | Returns 1 exactly when some prefix of the text is a run of the character followed by a match of the rest |
| `Grep.Match` | grep.c:73-82 | Returns 1 exactly when some suffix of the text, or the whole text after a caret, has a prefix in the pattern's language |

## Left out

- LogProtocol.OnlyFullLogPanics: assumes log.size above LOGSIZE, which the layout of mkfs.c:25 does not give; LogProtocol.PanicsExactly is the statement for every layout.
- LogProtocol.BigLogIsSafe: operations keep to MAXOPBLOCKS new blocks each, which log.c does not enforce; a log_write beyond that is not a step of the protocol.
- LogProtocol.OverrunCorrupts: follows write_log past the end of the log up to the crash; what install_trans would do with an overrun list is not modelled.
- Log.Log.Commit: other threads may hold buffers of blocks outside the log and the list; waiting for one that holds a listed block is not modelled. Between a buffer to spare and none but pinned ones, with readers holding the rest, nothing is said about the panic.
- Bio.Bcache.Bread: is stated for a block whose buffer no other thread has locked; waiting for the lock is the business of SleepLock.
- Fs.FileSys.Writei: after the out-of-blocks panic nothing is said about the disk, since the machine stops there; device files are not part of it.
- Fs.FileSys.Bmap: block numbers up to the next block of the file, which are those that readi and writei pass. The methods of Fs read and write the plain block map, which Bio and Log show to be what buffers and transactions give; they do not call them.
- Fs.FileSys.BmapIndirect: block numbers up to the next block of the file, as for Bmap.
- Fs.FileSys.FileWrite: no other thread writes the file between two chunks, where file.c:133-152 drops the inode lock.
- FsCrash.FileWriteCrash: no other operation runs meanwhile, and a chunk logs each of its blocks once, with the contents it has at the end of the chunk; earlier contents of the same chunk never become durable.
- Fs.FileSys.Readi: device files and the inode cache's reference counts are not part of it.
- Links.Tree.Create: the device type and the failure of dirlink for want of disk blocks are not modelled.
- Links.Tree.DirLink: the panic when writei cannot write the whole entry is not modelled.
- Links.Tree.LinkEnd: the 16-bit width of nlink is not modelled.
- Ptable.Ptable.Wait: process ids, the address space freed by the reaping and the name are not modelled; children are table slots.
- Ptable.Ptable.Fork: the failure of copyuvm, which also returns with ptable.lock held, is not modelled.
- Ptable.Ptable.Kill: the search for the process id is not modelled; the slot is given.
- Ptable.Ptable.KthreadCreate: what the write past the table destroys is not modelled.
- Ptable.Ptable.AllocThread: what the write past the table destroys is not modelled.
- Umalloc.Heap.Malloc: stops at a call of sbrk with a count other than meant; what morecore then does to the heap is not modelled.
- Vm.Vm.Copyuvm: the pages below sz are mapped, as its panics demand.
- Vm.Vm.Mappages: the stretches above KERNBASE that setupkvm maps; the single user pages that allocuvm and copyuvm map are Vm.Vm.MapPage.
- Vm.Vm.Kalloc: the free pages are a set here and any call may fail; that they are a list threaded through the pages is in Kalloc.
- The error paths of fork and kthread_join that return with ptable.lock held.
- kthread_mutex and the tournament tree: they work on copies of the mutex, so mutual exclusion does not follow from the code.
- exec.c, the ELF loader, and its loop that waits for other threads to exit.
- Wakeups between the two ends of a pipe, and that a pipe's page is freed when both ends are closed.
- holdingsleep as a test of per-thread ownership: it compares process ids.
- The choice of the next thread by the scheduler's scan, and fairness: any RUNNABLE thread may be picked.
- Path lookup, open files and the file table; the inode cache and its locks.
- mkfs.c beyond an empty disk and an empty root: the superblock's own block is not encoded, and the initial states are any that satisfy the invariants, which FsBytes.FormattedIsWhole and Links.RootOnlyHolds show to exist.
- runcmd, getcmd and main of the shell, and grep's reading of its input.
- Device files, the console, interrupt controllers, the disk driver's port I/O, boot code and assembly.
- syscall.c, sysproc.c and trap.c, which fetch arguments and dispatch.
- The library routines of string.c, ulib.c and printf.c, used through their meaning.
