# Verified models of xv6

This project models the parts of two xv6 trees whose behaviour is hardest to get right and proves
properties of them over every input, run or reachable state. Files that both trees share are cited
from `xv6-public-modificado`.

**The file system.** `LogMachine` is the write-ahead log as a machine that writes one block per step
and may crash between any two writes, also during recovery. `Log` is log.c over it: while lists fit
the log area, every block write inside a method appends a state to a ghost run of the machine, so
the crash theorems hold in the middle of every method. `FsLayout`, `FsWrite`, `FsTrunc` and `Fs`
take inodes, the bitmap and indirect blocks to files as byte sequences, with each block in one
owner's hands. `FsCrash` runs their operations through the log: whichever block write a power
failure follows, recovery leads to a consistent file system. `FsWorst` is a run to a write that logs
as much as an operation may. `Bio` is the buffer cache over the synchronous disk, and `BioLog` the
buffers that a commit needs of it. `Bytes` holds blocks, little-endian words and bits, `Param` the
sizes that these modules share.

**Memory.** `Umalloc` is the user-level allocator with its circular coalescing list; a ghost map says
which block each unit belongs to. `VmSpace` and `Vm` are two-level page tables kept in physical frames,
each frame with exactly one role; `Sbrk` is the call from the one to the other. `BestFitTree` and
`BestFit` are the best-fit page allocator over a binary search tree with parent links, and `BestFitRuns`
what it does from boot on.

**Processes.** `Sleep` is sleep and wakeup under sleep-locks and pipes as interleaved steps, and
`SleepCalls` what whole calls have done when they return. `Procs`, `ProcSafety` and `ProcRuns` are
fork, exit, wait, kill, yield and the two-level scheduler on many CPUs; `ProcCalls` is what their
calls have done, `ProcHistory` what becomes of parents, pids and killed flags, and `ProcPriority`
and `ProcKilled` are runs. `RoundRobin` is the original scheduler.

**Programs.** `ShellGrammar`, `ShellRoundTrip` and `Shell` are the shell's tokenizer, its
recursive-descent parser and the NULs it writes into its buffer; `ShellDerivation` is its language
as a grammar over tokens, `ShellWords` where the words of a line go, and `ShellPanics` what is wrong
with a refused one. `Grep` is the regular-expression matcher against a declarative meaning of its
patterns.

Concurrent code is a machine whose steps are what happens between two points where another process
can see a difference: spinlocks are atomic, and a context switch is one step that hands ptable.lock
over. In `Log` and `Bio` a method is one section under a lock, so that any order of calls is a run,
with one exception: log_write tests the log before it takes log.lock, so `LogTest` and `LogAppend`
are two steps, with others between them, and `LogWrite` is both without interruption. `Fs` works on
locked inodes. Panics are results or unreachable branches; clocks, interrupts and the supply of
memory are labels or parameters.

## Findings

The code does not always do what its comments or its callers expect. In each case the code is kept
as it is and the exact condition is proved; where it takes a history to get there, a run does.

- log.c reserves up to LOGSIZE blocks for open operations, but log.c:218 tests the length of the
  list before it looks for the block in it, so operations that keep their reservations can reach the
  "too big a transaction" panic. With a log area of more than LOGSIZE blocks they do exactly when
  the list holds LOGSIZE blocks, and then only for a block that is listed already (`Log.LogWrite`);
  three operations get there (`OverrunByAbsorption`). The test also stops at the size of the log
  area, and mkfs.c:25 makes that LOGSIZE blocks with the header: then a block not yet listed meets
  the panic too (`OverrunShortLog`).
- The same tests are made without log.lock (log.c:217-222), so that two operations can pass them one
  after the other before either appends. With a log area of more than LOGSIZE blocks the list still
  fits it, whatever the order (`LogAppend`); with one of at most LOGSIZE blocks, of any size, two
  operations within their reservations outgrow it (`RacePastLog`). The commit of such a list writes
  the block after the log area, where mkfs.c puts the first inodes (`OverrunInodes`). `Log.Valid`
  and with it crash atomicity hold as long as lists fit, which is in every run exactly when the area
  exceeds LOGSIZE.
- param.h has as many buffers as the log's list has room for, and the log keeps one pinned for each
  block listed. A commit gets through exactly when a buffer is left that is neither pinned nor
  referenced, or all blocks of the log that it writes are cached (`BioLog.WriteLog`); so a list of
  LOGSIZE blocks is never committed: the machine stops in bget (`FullListUncached`,
  `FullListStops`). With mkfs.c's log area this panic comes before the overrun above, which takes a
  smaller area.
- A writer that is killed while the pipe is full returns without a wakeup (pipe.c:86-89). What it
  stored may leave a reader asleep on a full pipe (`KilledWriterStrandsReader`). No other step loses
  a wakeup (`OnlyDropsMiss`).
- The scheduler's comment promises strict priority to level 0 (proc.c:337-365), but c->proc is
  always 0 at proc.c:421: each pass runs at most one process of level 0 and then at most one of
  level 1 (`TestAlwaysSucceeds`, `DispatchOrder`). So level 1 is dispatched before a RUNNABLE
  process of level 0 in a run where init forks and uses up its quantum (`LevelOneOvertakes`), and
  never except in a pass that has just run a process of level 0 (`OvertakingPass`).
- kill looks for its pid in every slot, used or not (proc.c:585-587), and allocproc does not clear
  the killed flag: a process is born killed exactly when its slot has the flag (`ForkSteps`). A slot
  without a process has it only since a kill named its pid: 0, or that of a fork that is not through
  or failed (`MarkedByKill`). After kill(0) and fork the child is killed (`BornKilled`).
- growproc that shrinks a process to exactly 0 unmaps every page, fails, and leaves the size as it
  was (`Growproc`).
- malloc's sums wrap: a block holds what was asked for exactly when the request is at most 2^32 - 8
  bytes (`EnoughUnits`); from 2^31 - 15 up to there, unless a free block fits, sbrk is asked for a
  count that is negative or 0 (`ArgIsWrapped`, `Malloc`). Then the process loses all its pages and
  malloc fails, or morecore writes a header at the old end of memory, which faults or, exactly when
  that end lies inside a page that stays, corrupts what is there (`PlantedWhen`, `WrappedCall`).
- itrunc logs every bitmap block that its file's blocks lie under, and iput the inode's block
  besides: an operation may free a file exactly when those bitmap blocks are fewer than MAXOPBLOCKS
  (`FreeingFits`). On a disk of at most MAXOPBLOCKS - 1 bitmap blocks, as mkfs.c makes, they always
  are (`SmallDisk`).
- The nodes of the best-fit allocator are never returned to their pool of 128. A page given back is
  free again exactly while a node is left; without one the free blocks that follow on it go too
  (`Kfree`). At boot pages are freed one by one, each taking a node, so that no more than 128 become
  free (`Kinit1`). Booted with 128 pages or more, kalloc therefore hands out each of 128 pages at
  most once, ever, whatever is taken and given back (`ServesPoolOnce`), and taking one page and
  giving it back at once loses all of them (`GivingBackLosesAll`). The three findings that follow
  need a node to insert, so their runs boot with fewer pages, take all of them and give some back.
- In the same allocator total_free grows by more than a page exactly when a free block starts where
  the page ends and the search comes upon it (`Kfree`, `AbsorbedCountsTwice`).
- Its search for a free block to absorb goes by address through a tree ordered by size. It comes
  upon a block exactly when every node above that block lies on the side that its address says
  (`FoundWhenSided`, `TryCoalesce`); in a tree in order a block that follows directly is missed
  (`NeighbourIsMissed`).
- Splitting a block in place keeps the tree's order exactly when the block is one page or no other
  free block of its size lies lower (`Kalloc`); a run in which it does not is `SplittingDisorders`.
- The shell reads `>> file` as it reads `> file`, with the same mode (sh.c:388-393;
  `AppendReadsAsOverwrite`, for every command, place and file name).

## Model

| member | source | states |
|---|---|---|
| LogMachine.HeaderRoundTrip | xv6-public-modificado/log.c:85-113 | the header read at recovery is the list of block numbers last written, whatever the block held before |
| LogMachine.NextInv | xv6-public-modificado/log.c:69-122 | every block write of commit or recovery, and every crash, keeps the invariant that ties the disk to the committed groups |
| LogMachine.CrashAtomicity | xv6-public-modificado/log.c:69-122 | in every state of every run with crashes between any two writes, finishing recovery leaves the home blocks as the committed groups, in order, leave them |
| LogMachine.CommittedGrows | xv6-public-modificado/log.c:192-202 | the committed groups of an earlier state are a prefix of those of every later one, crashes included: nothing committed is ever lost |
| LogMachine.RecoveryStep | xv6-public-modificado/log.c:115-122 | in any state of recovery the next write is a legal step that comes nearer the end and loses no group |
| LogMachine.Replay | xv6-public-modificado/log.c:69-81 | from any state of recovery, interrupted or not, a run leads to an idle log with the same committed groups |
| LogMachine.RecoveryCompletes | xv6-public-modificado/log.c:115-122 | from any state of any run a crash can be followed by a recovery that ends, with every committed group at home |
| Log.AbsorptionPreservesMeaning | xv6-public-modificado/log.c:213-233 | copying each pinned buffer once leaves what all the log_write calls, in order, would have left |
| Log.HistoryGrows | xv6-public-modificado/log.c:146-174 | a commit of the operations since the last one keeps the history exact, and every operation in one group |
| Log.AppliedIsRewritten | xv6-public-modificado/log.c:192-202 | the committed groups have the effect, block by block, of the log_write calls of the operations in them |
| Log.ReservedBound | xv6-public-modificado/log.c:125-142 | what open operations may still log is at most MAXOPBLOCKS for each of them |
| Log.Log.constructor | xv6-public-modificado/log.c:53-67 | any disk image whose header is well formed is a state of recovery, with the copies its header lists still to do and no history before it |
| Log.Log.TryBeginOp | xv6-public-modificado/log.c:125-142 | an operation is admitted only while no commit runs and room for its whole reservation is left; otherwise nothing changes |
| Log.Log.LogTest | xv6-public-modificado/log.c:217-220 | the two tests, made without the lock: the size panic comes exactly when the list is as long as LOGSIZE or the log area allows, the other exactly when no operation is open |
| Log.Log.LogAppend | xv6-public-modificado/log.c:222-232 | in any state, also one that changed since the tests, a write within its operation's reservation is recorded, and absorbed when its block is listed already; the header has room for it, and the log area has whenever it exceeds LOGSIZE blocks |
| Log.Log.LogWrite | xv6-public-modificado/log.c:213-233 | tests and append with nobody in between: the panic for size is taken exactly when the list is as long as LOGSIZE or the log area allows; when the area exceeds LOGSIZE an operation takes it exactly at LOGSIZE blocks, and only for a block listed already, with its reservation spent |
| Log.Log.EndOp | xv6-public-modificado/log.c:146-174 | the operation and its reservation end; a commit starts exactly when it was the last; the panic at line 153 is an unreachable branch |
| Log.Log.WriteLog | xv6-public-modificado/log.c:177-190 | every listed block is copied in order to the blocks from log.start + 1 on, past the log area if the list is longer, provided that none of these is listed itself; while the list fits, the whole group is there and nothing is committed yet |
| Log.Log.WriteHead | xv6-public-modificado/log.c:101-113 | one block write, which with a full log area commits exactly that group, and with an empty list ends the installation |
| Log.Log.InstallTrans | xv6-public-modificado/log.c:69-81 | every listed block has been copied home and none is pinned any more; the log stays replayable throughout |
| Log.Log.Commit | xv6-public-modificado/log.c:192-202 | while lists fit, the pending operations, all of them and only them, become one entry of the history, the log is empty and the home blocks are current; of any list, no block changes that is not listed, the header, or one of those from log.start + 1 on where its copies go, and these are its copies if none of them is listed itself |
| Log.Log.Reboot | xv6-public-modificado/log.c:115-122 | after a power failure in any state recovery loses nothing committed and restores the home blocks |
| Log.Log.CrashKeepsWholeOperations | xv6-public-modificado/log.c:69-122 | recovering the disk as it is at any moment gives each home block the effect of the committed operations, and no operation is split between two commits |
| Log.OverrunShortLog | xv6-public-modificado/log.c:213-233 | with a log area of LOGSIZE blocks or fewer three operations within their reservations reach the panic at line 218 with a block not listed |
| Log.OverrunByAbsorption | xv6-public-modificado/log.c:213-233 | with a larger log area three operations within their reservations reach the panic with a block that is listed |
| Log.RacePastLog | xv6-public-modificado/log.c:213-233 | for every log area of LOGSIZE blocks or fewer, header included, two operations that both pass the tests before either appends leave a list longer than the area has room for |
| Log.OverrunInodes | xv6-public-modificado/log.c:177-202 | the commit of that list leaves the data of a logged block in the block after the log area, which no log_write was for |
| FsLayout.InodeRoundTrip | xv6-public-modificado/fs.c:220-236 | an inode written to its place in its block reads back, and the other inodes of the block are untouched |
| FsLayout.MarkedBits | xv6-public-modificado/fs.c:56-95 | setting or clearing a block's bit in the bitmap changes that bit and no other |
| FsLayout.OneHolder | xv6-public-modificado/fs.c:372-435 | a block number held by an inode, directly or through its indirect block, is held in one place only |
| FsLayout.Take | xv6-public-modificado/fs.c:56-79 | giving a free block to one empty slot keeps exactly one holder for every marked data block |
| FsLayout.Release | xv6-public-modificado/fs.c:81-95 | clearing the bit of a held block, whose slot is then forgotten, leaves every other block with exactly one holder |
| FsLayout.TakeConsistent | xv6-public-modificado/fs.c:372-400 | an allocation for one file leaves every other file's bytes, and every inode on disk, as they were |
| FsLayout.StoreConsistent | xv6-public-modificado/fs.c:481-511 | a store into a file's block is seen through no other file, the bitmap or an inode |
| FsLayout.KeptContent | xv6-public-modificado/fs.c:452-478 | a file whose slots and blocks were kept has the same byte sequence |
| FsLayout.UpdateInode | xv6-public-modificado/fs.c:220-236 | writing an inode to disk makes its copy current and changes no file |
| FsLayout.BlankConsistent | xv6-public-modificado/mkfs.c:238-251 | zeroed blocks with the bits of everything below the data area set are a consistent file system without files |
| FsLayout.PatchFile | xv6-public-modificado/fs.c:481-511 | patching bytes of one mapped block patches those bytes of its file and no others |
| FsWrite.ProgressAlloc | xv6-public-modificado/fs.c:372-400 | blocks that bmap adds in the middle of a write disturb nothing written so far |
| FsWrite.ProgressPatch | xv6-public-modificado/fs.c:481-511 | each piece extends what is written by exactly its bytes |
| FsWrite.ProgressEnds | xv6-public-modificado/fs.c:481-511 | at the end the file is its old content with the source laid over it, extended if need be |
| FsWrite.TallyStep | xv6-public-modificado/fs.c:481-511 | each piece of a write logs one data block and at most one bitmap block, none for an unaligned first block, and the indirect block once |
| FsWrite.ChunkFits | xv6-public-modificado/file.c:126-154 | the bound for a chunk of filewrite is at most MAXOPBLOCKS from any offset, equals it from an unaligned one, and is over it for chunks two bytes longer |
| Fs.FileSystem.constructor | xv6-public-modificado/mkfs.c:93-115 | a formatted disk is a valid state with every inode and every data block free |
| Fs.FileSystem.Balloc | xv6-public-modificado/fs.c:56-79 | returns the first free block, zeroed and marked, with every other block and bit as it was; the panic means every block is in use |
| Fs.FileSystem.Bmap | xv6-public-modificado/fs.c:372-400 | returns the block of a file, allocating it and the indirect block only if absent; content of all files is kept |
| Fs.FileSystem.Iupdate | xv6-public-modificado/fs.c:220-236 | every inode on disk is current afterwards, and no file changed |
| Fs.FileSystem.Readi | xv6-public-modificado/fs.c:452-478 | exactly the requested slice of the file's bytes, cut at its size, across direct and indirect blocks; refused past the end or when the sum wraps |
| Fs.FileSystem.Writei | xv6-public-modificado/fs.c:481-511 | on success the file is its old bytes up to off, the source, and the old bytes after it; no other file changes; the blocks gained are the lowest free ones, all in slots that the write needed; the blocks logged are bounded from above and include every block written, every block gained and its bitmap block; the panic means that every block is in use and one is still missing |
| Fs.FileSystem.Bfree | xv6-public-modificado/fs.c:81-95 | clears the bit of a marked block and changes nothing else |
| Fs.FileSystem.Itrunc | xv6-public-modificado/fs.c:407-435 | exactly the blocks that the inode held are free again, the inode is empty, and every other file is untouched; the blocks logged are exactly the bitmap blocks of what it held and the inode's; the "freeing free block" panic is not reached |
| Fs.FileSystem.Ialloc | xv6-public-modificado/fs.c:194-214 | the first free inode becomes an empty file of the given kind; the panic means there is none |
| Fs.FileSystem.IputLast | xv6-public-modificado/fs.c:331-353 | an inode without links gives back all its blocks and becomes free, logging exactly their bitmap blocks and its own |
| FsTrunc.FreeingFits | xv6-public-modificado/fs.c:407-435 | freeing a file logs at most MAXOPBLOCKS blocks exactly when its blocks lie under fewer than MAXOPBLOCKS bitmap blocks |
| FsTrunc.SmallDisk | xv6-public-modificado/mkfs.c:94-111 | on a disk of at most MAXOPBLOCKS - 1 bitmap blocks every file does |
| Fs.FileSystem.Filewrite | xv6-public-modificado/file.c:118-156 | the answer, and how many bytes are in place, are those that kind, size, offset and count call for: all of them exactly when the offset is not past the end and they fit in a file, and otherwise the whole chunks that do; transactions of at most MAXOPBLOCKS blocks; a panic means a full disk and a block missing for the next chunk |
| FsWorst.WorstWrite | xv6-public-modificado/file.c:126-154 | a run from a formatted disk, with a layout that mkfs computes, to a chunk that logs exactly MAXOPBLOCKS blocks: the reservation cannot be smaller |
| FsCrash.AgreeingConsistent | xv6-public-modificado/fs.c:372-478 | consistency and every file's bytes do not depend on the blocks before the inodes, the log's among them |
| FsCrash.StatesShow | xv6-public-modificado/log.c:192-202 | between two idle states with one commit at most, recovery from any state on the way leads to the first disk or the second |
| FsCrash.Transaction | xv6-public-modificado/log.c:125-233 | begin_op, any log_write calls for at most MAXOPBLOCKS blocks, end_op: the calls' effect is on disk afterwards, and a power failure on the way leaves all of it or none |
| FsCrash.LoggedFilewrite | xv6-public-modificado/file.c:118-156 | whichever block write of filewrite a power failure follows, recovery leads to the state after a whole number of its chunks; at the end that is the last one, which the offset agrees with, and answer and count are as in `Fs.FileSystem.Filewrite` |
| FsCrash.CrashedFile | xv6-public-modificado/file.c:118-156 | that state, read from the repaired disk, is a consistent file system in which the file is its old bytes overwritten by that part of the data, and every other file is as it was |
| FsCrash.LoggedIput | xv6-public-modificado/fs.c:331-353 | giving up an inode within the reservation, as a transaction: whichever block write a power failure follows, recovery shows all of it or none, and every other file as it was |
| FsCrash.LoggedIalloc | xv6-public-modificado/fs.c:194-214 | the same for taking an inode |
| Bio.Unhooked | xv6-public-modificado/bio.c:128-138 | taking a buffer out leaves a doubly linked ring of the others |
| Bio.Pushed | xv6-public-modificado/bio.c:45-55 | hanging a buffer in after the head gives the ring with it in front |
| Bio.Recycled | xv6-public-modificado/bio.c:78-91 | giving an idle buffer to a block nobody caches keeps blocks in one buffer at most and loses no logged contents |
| Bio.Published | xv6-public-modificado/bio.c:108-116 | logging or writing a buffer makes its contents the block's latest, on disk or pinned |
| Bio.Uncached | xv6-public-modificado/bio.c:95-106 | a block without a valid buffer has its latest contents on the disk |
| Bio.Cache.constructor | xv6-public-modificado/bio.c:38-56 | all NBUF buffers are on the ring, unused |
| Bio.Cache.Bget | xv6-public-modificado/bio.c:61-93 | the buffer that caches the block, or the least recently released idle one; a dirty buffer is never recycled; the panic means every buffer is referenced or dirty and none caches the block |
| Bio.Cache.Bread | xv6-public-modificado/bio.c:95-106 | the buffer shows what was last logged or written for its block |
| Bio.Cache.Iderw | xv6-public-modificado/memide.c:38-60 | a dirty buffer goes to its block of the disk, an invalid one is filled from it |
| Bio.Cache.Bwrite | xv6-public-modificado/bio.c:108-116 | the disk and the latest contents of the block are the buffer's |
| Bio.Cache.Pin | xv6-public-modificado/log.c:231 | the buffer is dirty and its contents are the block's latest |
| Bio.Cache.Unlock | xv6-public-modificado/bio.c:120-126 | a buffer whose changes were logged or written may be released |
| Bio.Cache.Unref | xv6-public-modificado/bio.c:128-140 | with its last reference a buffer moves to the front of the ring, which keeps the others' order |
| BioLog.CopyToLog | xv6-public-modificado/log.c:182-188 | the pinned contents of a listed block go to its block of the log and the cache is used as before; bget panics exactly when every buffer is pinned or referenced and none caches that block of the log |
| BioLog.WriteLog | xv6-public-modificado/log.c:177-190 | all listed blocks are copied, and no other block of the disk changes, exactly when some buffer is neither pinned nor referenced or all blocks of the log to be written are cached; otherwise bget panics |
| BioLog.ListedBuffers | xv6-public-modificado/log.c:231 | the log pins one buffer for each listed block, so n listed blocks and r more referenced buffers make n + r that cannot be recycled |
| BioLog.FullListUncached | xv6-public-modificado/bio.c:61-93 | with NBUF listed blocks no buffer is left and none caches a block of the log: the commit panics |
| BioLog.FullListStops | xv6-public-modificado/log.c:177-233 | a run from a fresh cache in which LOGSIZE blocks are logged and write_log then stops in bget |
| Umalloc.EnoughUnits | xv6-public-modificado/umalloc.c:64-69 | the units computed hold nbytes, with less than one to spare, exactly when the 32-bit sum did not wrap |
| Umalloc.ArgIsWrapped | xv6-public-modificado/umalloc.c:52-54 | sbrk is asked for the bytes of the units exactly when these are fewer than the address space holds, and otherwise for a count that is negative or 0 |
| Umalloc.Search | xv6-public-modificado/umalloc.c:29-32 | the loop of free stops exactly at the free block after which the block belongs, or at the wrap |
| Umalloc.InsertKeeps | xv6-public-modificado/umalloc.c:36-42 | linking a block in at its place keeps one ring in address order and the partition of the heap |
| Umalloc.MergeKeeps | xv6-public-modificado/umalloc.c:33-41 | joining touching neighbours keeps the ring, the partition and every live unit |
| Umalloc.FreeKeeps | xv6-public-modificado/umalloc.c:24-44 | after free no two free blocks touch, and no other live unit changed |
| Umalloc.TakeKeeps | xv6-public-modificado/umalloc.c:76-77 | taking a whole block off the list keeps the heap well formed |
| Umalloc.SplitKeeps | xv6-public-modificado/umalloc.c:78-82 | cutting the tail off a block keeps the heap well formed |
| Umalloc.ExtendKeeps | xv6-public-modificado/umalloc.c:54-58 | memory from sbrk joins the partition as one block |
| Umalloc.GrantedIsApart | xv6-public-modificado/umalloc.c:64-90 | no unit of a granted block belonged to a block that was live |
| Umalloc.EveryUnitOnce | xv6-public-modificado/umalloc.c:24-90 | every unit obtained from sbrk lies in exactly one block, free or live |
| Umalloc.FreeBlocksAreSeparated | xv6-public-modificado/umalloc.c:33-42 | between a free block and the next one there is a block in use |
| Umalloc.AllGivenBack | xv6-public-modificado/umalloc.c:24-44 | when everything was freed one block holds all the memory ever obtained |
| Umalloc.DataIsTheirs | xv6-public-modificado/umalloc.c:24-90 | whatever a program writes in its blocks past their headers, the heap stays well formed |
| Umalloc.Allocator.Find | xv6-public-modificado/umalloc.c:29-32 | the search terminates at the block's place from any starting point on the ring |
| Umalloc.Allocator.Free | xv6-public-modificado/umalloc.c:24-44 | the block is no longer live, its units are free, no other live unit changed hands or contents, and the next search starts at the free block before it |
| Umalloc.Allocator.Morecore | xv6-public-modificado/umalloc.c:46-61 | at least 4096 units more on the list, or failure with nothing changed |
| Umalloc.Allocator.Malloc | xv6-public-modificado/umalloc.c:63-90 | a new live block of the size asked for, whole or the tail of the first free block that fits from where the last search ended, disturbing no live unit; after at most one call of morecore, made only when nothing fits; failure only when the kernel has nothing either; a byte count that wraps to 0 or less is stated with what becomes of the process, and nothing else changed |
| Umalloc.PlantedWhen | xv6-public-modificado/umalloc.c:46-61 | after such a count a header is written into a mapped page exactly when memory ends inside a page and what is given back, if it can be, ends in that page too |
| Sbrk.SysSbrk | xv6-public-modificado/sysproc.c:46-57 | the old size, with size and mapped pages in agreement, or failure; growing fails exactly for want of frames or of room below KERNBASE; a count of at most 0 fails exactly when the size was 0 or becomes 0, and in the second case every page is unmapped though the size stays |
| Sbrk.WrappedCall | xv6-public-modificado/proc.c:167-184 | the page tables bear out that fate: every page gone, or the page at the returned address absent, or present |
| VmSpace.TabledKeeps | xv6-public-modificado/vm.c:35-55 | a new zeroed table changes no mapping |
| VmSpace.WrittenLookup | xv6-public-modificado/vm.c:60-80 | writing one page-table entry changes the mapping of one page of one directory |
| VmSpace.UserMapped | xv6-public-modificado/vm.c:60-80 | mapping a held frame keeps every frame in exactly one role |
| VmSpace.UserUnmapped | xv6-public-modificado/vm.c:269-276 | unmapping a page and freeing its frame keeps every frame in exactly one role |
| VmSpace.CondemnedKeeps | xv6-public-modificado/vm.c:283-298 | a directory without user pages reaches exactly its tables |
| Vm.KmapIsOk | xv6-public-modificado/vm.c:105-115 | the kernel's regions are page-aligned, in the upper half, and do not overlap, for any position of data |
| Vm.Undone | xv6-public-modificado/vm.c:342-345 | freeing a directory made since leaves every frame in the role it had: nothing lost, nothing freed twice |
| Vm.RolledBack | xv6-public-modificado/vm.c:235-246 | shrinking undoes partial growth: the user mapping is the old one |
| Vm.Kernel.constructor | xv6-public-modificado/kalloc.c:39-47 | a machine with all frames free and nothing mapped is a valid state |
| Vm.Kernel.Kalloc | xv6-public-modificado/kalloc.c:72-100 | the first frame of the free list, which becomes held, or 0 when no frame is free |
| Vm.Kernel.Walkpgdir | xv6-public-modificado/vm.c:35-55 | the table of a page, made on request with its flags unless memory is out; no mapping changes |
| Vm.Kernel.Mappages | xv6-public-modificado/vm.c:60-80 | any range: its pages are mapped to consecutive frames with the permissions, or, when memory for tables is out, its first ones are; no other page is mapped differently, frames of user pages take that role, and no other frame changes but to become a table |
| Vm.Kernel.Deallocuvm | xv6-public-modificado/vm.c:255-279 | exactly the pages from newsz up to oldsz are unmapped and their frames freed, as by a page-by-page scan, in spite of the jumps over absent tables |
| Vm.Kernel.Allocuvm | xv6-public-modificado/vm.c:221-249 | the new pages are zeroed frames that were free; it succeeds exactly when the free frames suffice for the pages and the tables that they lack; on failure every mapping is as before and only tables of this directory were kept |
| Vm.Kernel.Freevm | xv6-public-modificado/vm.c:283-298 | every frame of the directory, its tables and its pages is freed once, and no other frame |
| Vm.Kernel.Setupkvm | xv6-public-modificado/vm.c:118-136 | a directory with the kernel's regions mapped as listed and no user page, exactly when there are frames for it and its tables; otherwise everything as before |
| Vm.Kernel.Copyuvm | xv6-public-modificado/vm.c:315-345 | the copy has equal contents and flags in frames that were free, the source is untouched; it fails exactly when the free frames do not suffice for directory, tables and pages, and then everything is as before |
| Vm.NeededIs | xv6-public-modificado/vm.c:105-136 | with the kernel's regions as they are, a copy of n pages takes 65 frames, n, and one for each 1024 pages or part of them |
| Vm.KmapMaps | xv6-public-modificado/vm.c:105-115 | page by page what the kernel's half maps: memory below the devices at the same distance from KERNBASE, its text read-only, the devices at their own addresses, nothing else and nothing for user code |
| Vm.Kernel.Growproc | xv6-public-modificado/proc.c:167-184 | growing succeeds exactly below KERNBASE and with frames enough, and adds zeroed pages; shrinking clears exactly the pages above; size and mapped pages agree afterwards exactly unless a shrink went to 0 |
| BestFitTree.InsertedMirrors | Archivos de prueba/kalloc_bestfit.c:102-123 | linking the new node at the end of the descent gives the links, parents included, of the tree with one more leaf |
| BestFitTree.InsertedTotal | Archivos de prueba/kalloc_bestfit.c:77-126 | any sum over the blocks grows by the new block's term: nothing lost or doubled |
| BestFitTree.InsertedOrdered | Archivos de prueba/kalloc_bestfit.c:102-123 | the tree stays ordered by size and address |
| BestFitTree.CutMirrors | Archivos de prueba/kalloc_bestfit.c:154-182 | bypassing a node with at most one child gives the links, parents included, of the tree without it |
| BestFitTree.CutTotal | Archivos de prueba/kalloc_bestfit.c:154-182 | any sum over the blocks shrinks by the removed block's term |
| BestFitTree.CutOrdered | Archivos de prueba/kalloc_bestfit.c:154-182 | the rest stays ordered |
| BestFitTree.SuccessorOrdered | Archivos de prueba/kalloc_bestfit.c:184-193 | a node may take over its successor's block without upsetting the order |
| BestFitTree.FindFits | Archivos de prueba/kalloc_bestfit.c:203-224 | whatever the order, the result fits and is in the tree, and a root that fits suffices |
| BestFitTree.FindIsBest | Archivos de prueba/kalloc_bestfit.c:203-224 | on an ordered tree the result is a smallest block that fits, and there is one exactly when some block fits |
| BestFitTree.ShrinkOrdered | Archivos de prueba/kalloc_bestfit.c:384-394 | when a smallest block of an ordered tree shrinks in place, the order is kept exactly if it is the leftmost |
| BestFitTree.FoundWhenSided | Archivos de prueba/kalloc_bestfit.c:242-250 | a descent by address comes upon a block exactly when every node above it lies on the side that its address says |
| BestFitTree.FoundExactly | Archivos de prueba/kalloc_bestfit.c:242-250 | a descent to an address finds something exactly when a free block starts there and stands so |
| BestFit.KMem.BstInsert | Archivos de prueba/kalloc_bestfit.c:77-126 | the tree has exactly one block more, in order, or the pool is used up and nothing changed |
| BestFit.KMem.BstDelete | Archivos de prueba/kalloc_bestfit.c:145-194 | links and tree are those without the node, or with its successor's block in it and without the successor; exactly its block is gone; links, parents and order are kept in all three cases |
| BestFit.KMem.Find | Archivos de prueba/kalloc_bestfit.c:203-224 | the search over the links finds what the search over the tree finds |
| BestFit.KMem.TryCoalesce | Archivos de prueba/kalloc_bestfit.c:236-269 | blocks are absorbed until a descent by address finds none at the end of the grown one; some are exactly when a free block starts where the given one ends and every node above it lies on the side that its address says; what the grown block covers more, the tree covers less, page by page |
| BestFit.KMem.Kfree | Archivos de prueba/kalloc_bestfit.c:326-355 | exactly that page becomes free while the pool has a node, and never otherwise; the statistic is right, and without a node no other page is lost, exactly when the search beforehand comes upon no free block where the page ends |
| BestFit.KMem.Kalloc | Archivos de prueba/kalloc_bestfit.c:359-407 | exactly one free page is taken, from the block the search finds, a smallest one if the tree is ordered; none exactly when no page is free; an order survives exactly when the block was one page or no other of its size lies lower |
| BestFit.ShrinkKeepsOrder | Archivos de prueba/kalloc_bestfit.c:384-394 | a smallest block keeps its place in the order after losing a page exactly when no other free block of its size lies lower |
| BestFitRuns.Kinit1 | Archivos de prueba/kalloc_bestfit.c:279-317 | of the pages of the range exactly the first 128 become free, each in a node of its own |
| BestFitRuns.ChainIsAbsorbed | Archivos de prueba/kalloc_bestfit.c:236-269 | a block that ends where pages freed in order start absorbs them all |
| BestFitRuns.GivingBackLosesAll | Archivos de prueba/kalloc_bestfit.c:326-355 | booted with 128 pages or more, taking one page and giving it back leaves no page free |
| BestFitRuns.ServesPoolOnce | Archivos de prueba/kalloc_bestfit.c:326-407 | booted with 128 pages or more, whatever is taken and given back, at most 128 pages are ever granted and each once; all free blocks stay single pages in order |
| BestFitRuns.AbsorbedCountsTwice | Archivos de prueba/kalloc_bestfit.c:326-355 | booted with 2 to 126 pages, all taken and two given back: they are free and count as three |
| BestFitRuns.NeighbourIsMissed | Archivos de prueba/kalloc_bestfit.c:236-269 | booted with 5 to 124 pages, all taken and four given back: before the last call a block of the tree, in order, starts where the page ends and the descent does not find it; after it both are still blocks of their own |
| BestFitRuns.SplittingDisorders | Archivos de prueba/kalloc_bestfit.c:384-394 | booted with 5 to 124 pages, all taken, four given back and one taken again: the tree is not in order |
| Sleep.StoredOk | xv6-public-modificado/pipe.c:93 | a byte stored goes to the end of the ring, also when the counter wraps |
| Sleep.TakenOk | xv6-public-modificado/pipe.c:113-117 | the byte read is the oldest in the ring, also when the counter wraps |
| Sleep.DoKeeps | xv6-public-modificado/proc.c:517-574 | every step keeps lock ownership, holders of sleep-locks and pipe contents consistent |
| Sleep.WakesMisses | xv6-public-modificado/proc.c:557-565 | wakeup1 leaves nobody behind on its channel, asleep or about to sleep |
| Sleep.OnlyDropsMiss | xv6-public-modificado/pipe.c:78-98 | a step leaves somebody asleep without reason exactly when it is the return of a killed writer from a full pipe while a reader sleeps |
| Sleep.NoLostWakeup | xv6-public-modificado/proc.c:517-574 | in every interleaving without that return, a process asleep while the spinlock is free sleeps on a locked sleep-lock, an empty pipe with writeopen set, or a full one with readopen set |
| Sleep.MutualExclusion | xv6-public-modificado/sleeplock.c:22-42 | in every interleaving at most one process holds a sleep-lock, and it is locked then |
| Sleep.Fifo | xv6-public-modificado/pipe.c:78-121 | in every interleaving the bytes stored are the bytes delivered followed by the ring, which holds nwrite - nread bytes, modulo 2^32, and at most 512 |
| SleepCalls.WriteSoFar | xv6-public-modificado/pipe.c:78-98 | in every interleaving what a call of pipewrite has stored is the beginning of its bytes, in order, as far as it counts; all of them when it goes on to its last wakeup |
| SleepCalls.WriteReturns | xv6-public-modificado/pipe.c:84-97 | a call that returns without having stored all stopped at a full pipe whose read end is closed, or because it was killed |
| SleepCalls.ReadSoFar | xv6-public-modificado/pipe.c:101-121 | what was delivered to a call of piperead is what it has copied, in order, and n bytes at most |
| SleepCalls.ReadReturns | xv6-public-modificado/pipe.c:106-120 | a call that returns has n bytes or has emptied the pipe; without any it found the write end closed, or was killed before it copied |
| SleepCalls.AcquireReturns | xv6-public-modificado/sleeplock.c:22-32 | who returns from acquiresleep holds the lock, alone |
| SleepCalls.ReleaseReturns | xv6-public-modificado/sleeplock.c:34-42 | who returns from releasesleep does not hold it |
| SleepCalls.EndsStep | xv6-public-modificado/pipe.c:60-68 | an end of a pipe is closed by pipeclose for that end and by nothing else |
| SleepCalls.CloseReturns | xv6-public-modificado/pipe.c:60-74 | after pipeclose the end is closed for good |
| SleepCalls.KilledForGood | xv6-public-modificado/proc.c:580-597 | a killed process is awake then, and stays killed |
| Sleep.KilledWriterStrandsReader | xv6-public-modificado/pipe.c:85-89 | a run that ends with a reader asleep on a full open pipe and no lock taken |
| ProcRuns.StepKeeps | xv6-public-modificado/proc.c:186-321 | every step of fork, exit, wait, kill, yield, sleep, wakeup, the timer and the schedulers keeps the process-table invariant |
| ProcRuns.NoZombieIsMissed | xv6-public-modificado/proc.c:236-321 | no process asleep in wait has a zombie child, its own or one passed on to init |
| ProcRuns.ZombiesHaveParents | xv6-public-modificado/proc.c:264-271 | every zombie has a parent that is alive |
| ProcRuns.ZombieReapedByParent | xv6-public-modificado/proc.c:290-310 | a zombie keeps its slot and pid until its parent's wait frees it, once |
| ProcCalls.WaitStep | xv6-public-modificado/proc.c:286-319 | wait frees a zombie child as soon as its scan comes to one; it goes through all slots; without one it returns exactly if it has no child or is killed, and otherwise sleeps |
| ProcCalls.WaitReturns | xv6-public-modificado/proc.c:290-316 | a wait that returns has freed exactly one zombie child, slot, pid and parent, or nothing has changed and there is none to come |
| ProcCalls.WaitCall | xv6-public-modificado/proc.c:281-321 | a call of wait returns by such a step, however often it slept |
| ProcCalls.KillReturns | xv6-public-modificado/proc.c:580-602 | the lowest slot with that pid is marked, and made RUNNABLE if it slept; nobody else changes |
| ProcCalls.ForkSteps | xv6-public-modificado/proc.c:73-128 | fork takes the lowest UNUSED slot, with the next pid at level 0, and returns without exactly when there is none; out of memory it gives the slot back; otherwise the child is RUNNABLE with its parent set |
| ProcCalls.ForkCall | xv6-public-modificado/proc.c:189-231 | a call of fork that comes to its return found the table full, or has made the process that it set up RUNNABLE, with the pid that was the next one |
| ProcCalls.PcMoves | xv6-public-modificado/proc.c:186-602 | each process goes the way of its calls, one place after the other, whatever others do |
| ProcCalls.GivesUpCpu | xv6-public-modificado/proc.c:465-493 | exit, yield and sleep leave the process in its new state, its CPU free and the lock with its scheduler; an exited process has no children |
| ProcCalls.AllWoken | xv6-public-modificado/proc.c:557-575 | wakeup makes everybody on its channel RUNNABLE and nobody else |
| ProcCalls.SleepsUntilWoken | xv6-public-modificado/proc.c:517-602 | who sleeps does so until a wakeup on its channel or a kill of its pid |
| ProcHistory.ParentsChange | xv6-public-modificado/proc.c:258-310 | a child is its parent's until that exits, when it becomes init's, or reaps it |
| ProcHistory.PidsDiffer | xv6-public-modificado/proc.c:90-91 | no two slots have the same pid but 0, and the next pid never goes down |
| ProcHistory.PidIsNew | xv6-public-modificado/proc.c:90-91 | a new process has a pid that no slot ever had |
| ProcHistory.MarkedByKill | xv6-public-modificado/proc.c:580-602 | a slot without a process has its killed flag set only if a kill named its pid since it was last a process's |
| ProcKilled.BornKilled | xv6-public-modificado/proc.c:580-602 | for every table size a run in which kill(0) and fork make a process that is killed |
| ProcRuns.RunningOnOneCpu | xv6-public-modificado/proc.c:366-492 | a process is RUNNING exactly when some CPU has it as c->proc, and then one CPU only |
| ProcRuns.TestAlwaysSucceeds | xv6-public-modificado/proc.c:421 | c->proc is 0 at the test, so the search of level 1 always follows |
| ProcRuns.DispatchOrder | xv6-public-modificado/proc.c:386-447 | a dispatch takes the lowest-numbered RUNNABLE process of its level, and of level 0 at most one between two turns of level 1 |
| ProcCalls.LevelsSearched | xv6-public-modificado/proc.c:386-447 | a search looks at one slot after the other, dispatches the first RUNNABLE process of its level, and ends without one only when there is none |
| ProcRuns.OvertakingPass | xv6-public-modificado/proc.c:386-447 | level 1 is dispatched while a process of level 0 is RUNNABLE only in a pass of that CPU that has dispatched one of level 0 before, perhaps the same |
| ProcPriority.LevelOneOvertakes | xv6-public-modificado/proc.c:386-447 | for every table size a run in which it is |
| ProcRuns.FiveTicks | xv6-public-modificado/trap.c:121-146 | a pid is charged at most five ticks at level 0, and is at level 0 only before the fifth |
| ProcCalls.FifthTickDemotes | xv6-public-modificado/trap.c:121-142 | level and tick count of a process are those that its timer ticks since it was new say: level 0 exactly before the fifth |
| ProcRuns.NeverPromoted | xv6-public-modificado/trap.c:131-142 | a process at level 1 stays there; only a slot given to a new process is at level 0 again |
| RoundRobin.BoundedWaiting | xv6-public/proc.c:329-353 | a process that stays RUNNABLE is dispatched after at most NPROC - 1 other slots were looked at, and so that many other dispatches, from any scan position |
| RoundRobin.BoundIsReached | xv6-public/proc.c:329-353 | for every table size a run that meets the bound |
| ShellRoundTrip.SkipFirst | xv6-public-modificado/sh.c:310-320 | blanks before a command change nothing |
| ShellRoundTrip.WordToken | xv6-public-modificado/sh.c:266-308 | a word followed by a blank is one token that reads as the word |
| ShellRoundTrip.RedirStep | xv6-public-modificado/sh.c:374-397 | an arrow and a word are one redirection with its mode and descriptor |
| ShellRoundTrip.AppendReadsAsOverwrite | xv6-public-modificado/sh.c:384-394 | `>>` and a word are read as `>` and the word: one redirection with the same mode and descriptor |
| ShellRoundTrip.CommandAt | xv6-public-modificado/sh.c:399-446 | wherever a printed command stands, with a legal follower, parseexec reads it back and stops right after it |
| ShellRoundTrip.LineAt | xv6-public-modificado/sh.c:344-372 | the same for whole lines, with pipes, ampersands and semicolons at their levels |
| ShellRoundTrip.RoundTrip | xv6-public-modificado/sh.c:327-446 | parsing the printing of any legal tree, with as few parentheses as the grammar allows, gives the tree back |
| Shell.LineRead | xv6-public-modificado/sh.c:344-446 | every token of an accepted line is a whole word of it, and every EXEC has at most nine arguments |
| Shell.Canonical | xv6-public-modificado/sh.c:327-342 | every accepted line denotes a legal tree, whose canonical form parses to the same tree |
| ShellDerivation.TokensCover | xv6-public-modificado/sh.c:265-308 | the tokens and the blanks between them are the whole line |
| ShellDerivation.TokensUnique | xv6-public-modificado/sh.c:265-308 | and there is no other way to cut the line into symbols, double arrows and whole words |
| ShellDerivation.CommandParsed | xv6-public-modificado/sh.c:399-446 | each derivation of a command is parsed to its tree: the words in order in one EXEC, the redirections in order around it, however they are mixed |
| ShellDerivation.LineParsed | xv6-public-modificado/sh.c:344-372 | the same for lines, jobs and pipelines |
| ShellDerivation.LineFound | xv6-public-modificado/sh.c:344-446 | whatever is parsed has a derivation with that tree |
| ShellDerivation.ParserIsGrammar | xv6-public-modificado/sh.c:327-446 | the parser accepts exactly the lines of the grammar, each with one meaning |
| ShellWords.WordsKept | xv6-public-modificado/sh.c:374-446 | each word of an accepted line is in the tree once, a file if it follows an arrow and an argument otherwise, in their order; each EXEC has its arguments in the order of the line |
| ShellPanics.PanicMeans | xv6-public-modificado/sh.c:327-446 | each panic says what is wrong, at a token of the line; the one in parseblock is never reached |
| Shell.EndedAt | xv6-public-modificado/sh.c:449-493 | only the characters just past tokens change, and they become NUL |
| Shell.TokensSurvive | xv6-public-modificado/sh.c:449-493 | after all NULs are written every token reads as exactly itself |
| Shell.GetTok | xv6-public-modificado/sh.c:265-308 | the loops over the buffer compute the next token, its kind and its bounds |
| Shell.ReadRedirs | xv6-public-modificado/sh.c:374-397 | the loop over redirections computes what the grammar says |
| Shell.ReadExec | xv6-public-modificado/sh.c:415-446 | the loop over arguments computes what the grammar says, panics included |
| Shell.ReadLine | xv6-public-modificado/sh.c:344-359 | the loop over ampersands and the recursion compute what the grammar says, and terminate |
| Shell.NulTerminate | xv6-public-modificado/sh.c:449-493 | the buffer is the old one with NULs at the ends of the tree's tokens |
| Shell.ParseCmd | xv6-public-modificado/sh.c:327-342 | on success each pointer of the tree reads as the token the line had there; on a panic the buffer is unchanged |
| Grep.ItemsOfPrinted | xv6-public-modificado/grep.c:85-96 | each list of items that a pattern can be is read from its own text |
| Grep.PrintedItems | xv6-public-modificado/grep.c:85-96 | each pattern is the text of the list read from it, and that can be one |
| Grep.AcceptsOne | xv6-public-modificado/grep.c:93-94 | a pattern that starts with one character accepts exactly the texts that do and go on accepted |
| Grep.AcceptsStar | xv6-public-modificado/grep.c:99-106 | a pattern that starts with a repetition accepts exactly by some number of repetitions |
| Grep.MatchHere | xv6-public-modificado/grep.c:85-96 | true exactly when a prefix of the text is in the pattern's declared language |
| Grep.MatchStar | xv6-public-modificado/grep.c:99-106 | true exactly when repetitions followed by the pattern accept |
| Grep.Match | xv6-public-modificado/grep.c:72-82 | true exactly when the pattern accepts at some start, or at the first after a leading caret |

## Left out

- Devices and boot code, trap frames, segment set-up and swtch: registers and hardware; a context switch is one step and the disk is a map of blocks written atomically.
- Spinlocks and memory ordering: acquire and release are atomic.
- The log's sleep loop in begin_op: an attempt that finds no room leaves the state unchanged, and its repetition is the caller's.
- FsCrash.LoggedFilewrite: runs one operation at a time; `Log` itself covers operations that overlap. An operation's log_write calls reach the log in their order, after its last change to a cached block.
- The inode table (iget, idup, ilock), directories, path names and the file table: inodes are in memory and locked throughout, and one file at a time is written.
- writei and readi on devices: they end in a separate result without calling the driver.
- User copies, loaduvm, inituvm, clearpteu and copyout.
- The list links that kalloc.c keeps inside free frames: a free frame is shown with the byte 1 throughout.
- Vm.Kernel.Mappages: the physical address is page-aligned, as every caller passes it.
- Umalloc.Allocator.Malloc: when the count for sbrk is negative or 0 and morecore's header lands in a mapped page, the block that malloc then links in and grants, past the end of memory, is not stated; and morecore is taken to be the only caller of sbrk.
- Log.OverrunInodes: takes every buffer that write_log needs to be there, which with a list of NBUF blocks it is not (`BioLog.FullListUncached`).
- Statistics of the best-fit allocator beyond Kfree, and their 32-bit wrap-around; the address range that kfree checks.
- A killed process's exit when it returns to user code, and the pipe's memory, freed when both ends are closed.
- Preemption inside the kernel: a timer tick comes while a process runs user code; interleaving with other CPUs is at every step.
- Procs: the allocation of stacks and page tables in fork is one choice, made without the lock, that succeeds or fails; pids do not wrap.
- Sleep.NoLostWakeup: excludes the silent return of a killed writer, which is the one step that breaks it.
- ProcRuns.DispatchOrder: a level-0 process can wait for ever behind lower-numbered ones; only the alternation of the levels is bounded.
- The parser's heap cells: commands are values, and an argument added after a redirection is added to the EXEC at the tree's core.
- runcmd, the shell's loop, grep's line buffering and other programs: input and output.
- The tests and measurements of the repository.
