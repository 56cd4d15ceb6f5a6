# A verified model of xv6

xv6 is a small Unix-like teaching kernel. This project models the parts of it
that are hardest to get right and proves what they are for:

- **Log and buffer cache** (`BufferCache`, `LogDisk`, `WriteAheadLog`, `LogSystem`,
  `LogIo`; over `Blocks`, `Disk`). The disk is a sequence of 512-byte blocks, and a
  write of one block is atomic. `Bcache` and `Wal` are the objects of `bio.c` and
  `log.c`. `LogDisk` is the theory of a commit or a recovery cut short after any
  write. `LogSystem` is the whole machine: any number of operations in any
  interleaving, the size test of `log_write` made without the lock and so a step
  apart from its critical section, the commit and the recovery one block write at a
  time, and a crash between any two steps. It refines a disk on which a batch of
  operations happens at once or not at all. `LogIo` ties the two together.
  `CacheSystem` is the buffer cache with any number of users at once.
- **File system** (`Tree`, `DiskInode`, `FileSystem`, `OpenFile`, `SpreadDisk`,
  `CrashSafety`, `InodeCache`, `Names`, `Directory`, `Paths`). Inodes as words of inode
  blocks, block allocation and the direct and indirect block maps, reads and writes as
  operations on a byte sequence, exactly which blocks a write takes and logs and when it
  panics, the ten-block budget of an operation, the file system's invariant through
  the log and over crashes, the inode cache under concurrency, names, directories as
  maps, and link counts.
- **Heap** (`Heap`): the circular, address-ordered, coalescing free list of `umalloc.c`.
- **Memory** (`FramePool`, `PageTable`, `VirtualMemory`): the free list of page frames
  and the two-level page tables over it, as a flat map from pages to entries.
- **Processes and locks** (`ProcessTable`, `ProcessSystem`, `SpinLocks`, `SleepLocks`,
  `Pipe`, `PipeSystem`): the loops over the process table, and step systems for any
  number of CPUs and processes.
- **Shell and grep** (`Shell`, `ShellGrammar`, `ShellText`, `ShellWords`, `Grep`): the
  recursive-descent parser with its grammar, printer and image, and the matcher with its
  meaning.

An object that the C code updates in place is a class here, and each of its methods
is proved against a specification, stated outright or through a function that lemmas
relate to something independent of it: a grammar, a chain of directories, an invariant,
a round trip. Code that several CPUs run at once is a step system whose state includes where
each of them is, and the theorems are about every state of every run; the `...Whole`
lemmas take one call, undisturbed, from its beginning to its end. A panic is a
step that cannot be taken or an `ok` that is false; contracts say when.

## Findings

Properties that turned out to be false of the code, with their exact conditions:

- **The log can be overrun.** `log_write` tests the size of the transaction without
  `log.lock` and appends with it. On a log area of at most LOGSIZE blocks, which is
  what `mkfs.c:25` makes, two operations can pass the test for the last place; the
  second one's block then has no place in the log, and `write_log` writes the block
  behind it, the first of the inode blocks. `LogSystem.OverrunReachable`: some run does
  this if and only if 2 <= log size <= LOGSIZE. `LogSystem.RunSafe` holds on a larger
  log, and on a small one for runs in which no operation takes the last place
  while another is between test and append.
- **"Too big a transaction" can be reached** by an operation within its ten blocks:
  the reservations of `begin_op` add up to LOGSIZE blocks, and the area holds one less
  than its size, for the header. `LogSystem.PanicReachable`: some run does so if and only if the log
  area has at most LOGSIZE blocks.
- **An inode can be forgotten.** `iput` looks at the reference count, releases the
  sleep-lock, and only then decrements. Two overlapping iputs can each see the other's
  reference, and an inode without links stays allocated with nobody to free it
  (`InodeCache.OrphanReachable`). `InodeCache.StepNoOrphan` has the exact condition.
- **`ilock` can panic with "no type"** on an inode number kept by a directory that has
  itself been removed, as its ".." does (`InodeCache.StrayPanics`). Lookups through
  names with links behind them are safe (`InodeCache.RunSafe`).
- **A killed pipe writer strands readers**: it fills the pipe and returns without the
  wakeup (`PipeSystem.KilledWriterStrands`). `PipeSystem.RunNoneLostExactly` has the
  exact condition.
- **`malloc` of a size within 7 of 2^32** is given too small a block, because the
  rounding wraps around (`Heap.RequestCovered`).
- **Link counts drift in a removed directory.** `create` and `link` look at the type of
  the parent directory and not at its link count, and the parent can be a directory that
  has been removed while a process was in it. Every link count is the number of records
  naming the inode after the call if and only if the directory has a link itself
  (`Directory.LinkedExactly`, `Directory.MadeExactly`).

Two bounds that the code relies on, and how tight they are:

- **`filewrite`'s chunk** of 3 * 512 bytes logs at most ten blocks, at every offset of every
  file (`OpenFile.ChunkFits`, `OpenFile.File.Write`). One byte more logs eleven in exactly one
  case: the write starts where a file of nine to twelve full blocks ends, and the five blocks
  it takes have their bits in five free-map blocks (`OpenFile.LongerChunk`).
  `SpreadDisk.LongerChunkTooLong` is such a write, on a disk with five free-map blocks and
  one free block in each. On the disk that mkfs makes there is one
  free-map block, and the case does not arise.
- **`itrunc`** logs the inode's block and the free-map blocks with the bits of the file's
  blocks, and no others (`FileSystem.Fs.Itrunc`). That is within ten on every disk of at most
  nine free-map blocks (`CrashSafety.TruncBatch`).

## Model

| member | source | states |
|---|---|---|
| LogDisk.CrashAtomicity | week1/xv86/xv6-public/log.c:69-122 | commit stopped after any number of its block writes, then any number of recoveries each stopped anywhere, then one to the end: the home blocks are all old or all new, and the header on disk is empty |
| LogDisk.CommitCutDurable | week1/xv86/xv6-public/log.c:176-202 | the header write is the moment of commit: stopped before it the disk stands for the old blocks, from it on for the new ones |
| LogDisk.RecoverCutDurable | week1/xv86/xv6-public/log.c:69-122 | a recovery stopped anywhere changes nothing of what the disk stands for, and a full one leaves an empty log |
| LogDisk.SurvivesDurable | week1/xv86/xv6-public/log.c:116-122 | the same over any sequence of interrupted recoveries |
| LogDisk.DurableUnique | week1/xv86/xv6-public/log.c:116-122 | what a disk will recover to can be read off the disk alone |
| LogDisk.HeaderRoundTrip | week1/xv86/xv6-public/log.c:86-113 | the list of blocks write_head stores, over any old header, is the one read_head reads |
| LogDisk.CommitReaches | week1/xv86/xv6-public/log.c:176-202 | which copies are made, which header is on disk and which homes are installed after the k-th write of a commit |
| WriteAheadLog.Wal.Commit | week1/xv86/xv6-public/log.c:192-202 | the writes issued are those of CommitWrites in order, all of them or (if no buffer can be had) an initial part; afterwards every pin is gone, and one free buffer is enough for it to finish |
| WriteAheadLog.Wal.WriteLog | week1/xv86/xv6-public/log.c:177-189 | each logged block as readers see it, not as the disk has it, goes to its place in the log; nothing else is written |
| WriteAheadLog.Wal.WriteHead | week1/xv86/xv6-public/log.c:101-113 | one write, to the header block, of the list in memory |
| WriteAheadLog.Wal.InstallTrans | week1/xv86/xv6-public/log.c:69-82 | the log blocks go to their homes in order, and exactly those blocks lose their pins |
| WriteAheadLog.Wal.ReadHead | week1/xv86/xv6-public/log.c:85-97 | the list in memory is the one in the header block on disk, and nothing is written |
| WriteAheadLog.Wal.RecoverFromLog | week1/xv86/xv6-public/log.c:115-122 | the writes issued are those of RecoverWrites; afterwards readers see the disk itself |
| WriteAheadLog.Wal.EndOp | week1/xv86/xv6-public/log.c:145-174 | the last operation out commits, an earlier one writes nothing; the panic is exactly an end during a commit |
| WriteAheadLog.Wal.LogWrite | week1/xv86/xv6-public/log.c:213-234 | succeeds exactly if there is room and an operation is outstanding; the block is listed once however often it is logged, it is pinned, its disk copy is untouched, and the pinned blocks stay exactly the listed ones |
| WriteAheadLog.Wal.TryBegin | week1/xv86/xv6-public/log.c:125-142 | one pass of the admission loop: let in exactly if no commit runs and ten blocks for each operation still fit |
| LogSystem.RunSafe | week1/xv86/xv6-public/log.c:116-234 | over every run from boot, with crashes anywhere: a recovery at any moment leaves exactly the durable contents, readers see the current ones, and the reservations hold; on any log of more than LOGSIZE blocks, and on a smaller one for calm runs |
| LogSystem.StepRefines | week1/xv86/xv6-public/log.c:125-234 | every step is a step of the abstract disk, which only the header write of a commit makes durable, with no operation under way; the one exception is an append beyond the log area |
| LogSystem.AdmissionKept | week1/xv86/xv6-public/log.c:125-174 | every step keeps lh.n plus what the outstanding operations may still add within LOGSIZE, one committer and no operation beside it, and an empty list when idle, unless it is an append beyond the log area |
| LogSystem.AppendReserved | week1/xv86/xv6-public/log.c:213-234 | an admitted operation within its ten blocks finds room within LOGSIZE, with or without the size check |
| LogSystem.OverrunReachable | week1/xv86/xv6-public/log.c:213-234 | some run lists more blocks than the log area holds exactly if the area has between 2 and LOGSIZE blocks |
| LogSystem.PanicReachable | week1/xv86/xv6-public/mkfs.c:25 | some run brings an operation with room in its reservation to the size panic exactly if the log area has at most LOGSIZE blocks |
| LogSystem.PanicsExactly | week1/xv86/xv6-public/log.c:213-221 | in any state kept by admission, such an operation fails the size check exactly if the area has at most LOGSIZE blocks and is full |
| LogSystem.SettledKept | week1/xv86/xv6-public/log.c:213-234 | nobody is past a size check that would fail by now, and a step keeps it so exactly if it does not take the last place in the area while another operation is between check and append |
| LogSystem.SleepersWoken | week1/xv86/xv6-public/log.c:125-174 | whoever sleeps in begin_op has an operation outstanding or a commit running, whose end wakes it |
| LogSystem.SleeperWaits | week1/xv86/xv6-public/log.c:125-174 | whoever begin_op puts to sleep sleeps exactly until an operation ends that is not the last, a commit ends, or the machine stops |
| LogIo.CommitIssued | week1/xv86/xv6-public/log.c:176-202 | the commit of the step system, step by step, issues the writes of Wal.Commit: an initial part, and all of them when it gets to the end |
| LogIo.RecoveryIssued | week1/xv86/xv6-public/log.c:116-122 | its recovery issues those of Wal.RecoverFromLog |
| LogIo.DrainsToIdle | week1/xv86/xv6-public/log.c:69-122 | a commit or a recovery comes to an end: with n blocks listed a commit takes 2n + 4 steps, and then the list is empty and nobody asleep |
| BufferCache.Bcache.constructor | week1/xv86/xv6-public/bio.c:38-57 | all buffers are linked, unreferenced and empty |
| BufferCache.Bcache.Bget | week1/xv86/xv6-public/bio.c:61-93 | a cached block is found; otherwise the victim is the least recently released clean unreferenced buffer, a dirty one is never recycled, and the panic is exactly that there is none |
| BufferCache.Bcache.Bread | week1/xv86/xv6-public/bio.c:96-107 | the buffer holds what readers should see of the block, nothing is written, no other buffer changes |
| BufferCache.Bcache.Bwrite | week1/xv86/xv6-public/bio.c:110-117 | exactly that block is written with the buffer's contents, and the buffer is clean |
| BufferCache.Bcache.Brelse | week1/xv86/xv6-public/bio.c:120-142 | the last release moves the buffer to the front of the list and makes it the youngest; an earlier one leaves the order |
| BufferCache.Bcache.Iderw | week1/xv86/xv6-public/memide.c:38-60 | a dirty buffer goes to its block and no other, an invalid one comes from it |
| BufferCache.Bcache.FindVictim | week1/xv86/xv6-public/bio.c:78-91 | searching backwards finds the least recently released free buffer, and fails only if none is free |
| BufferCache.CleanAgrees | week1/xv86/xv6-public/bio.c:13-21 | what readers see of a block with a clean valid buffer is what the disk holds |
| CacheSystem.StepKept | week1/xv86/xv6-public/bio.c:61-142 | with any number of users, each step of bget, acquiresleep, bread, bwrite, log_write and brelse keeps one buffer per block, exact reference counts and agreement of clean buffers with the disk, exactly if it does not give back changes neither logged nor written |
| CacheSystem.StepSeen | week1/xv86/xv6-public/bio.c:61-142 | a step changes what is seen of a block only by an edit of that block, whatever is cached, recycled or written meanwhile |
| CacheSystem.RunSafe | week1/xv86/xv6-public/bio.c:61-142 | in every run from binit whose users save what they change, a reader has the last edit of its block, or what the disk held, and is alone inside its sleep-lock |
| CacheSystem.RunHas | week1/xv86/xv6-public/bio.c:61-142 | in every run the buffer that bget returns is for the block asked for until its caller lets go of it |
| CacheSystem.BreadWhole | week1/xv86/xv6-public/bio.c:61-107 | bread of a block nobody is using, undisturbed: the caller alone is inside its buffer, with what is seen of the block |
| CacheSystem.BwriteWhole | week1/xv86/xv6-public/bio.c:109-142 | bwrite and brelse, undisturbed: the block on disk is what the buffer held, the buffer is clean, unlocked and referenced once less, and nothing else changes |
| CacheSystem.Exclusive | week1/xv86/xv6-public/bio.c:61-142 | users of one block use one buffer, and one of them at most is inside its sleep-lock |
| CacheSystem.ReaderSees | week1/xv86/xv6-public/bio.c:96-107 | a reader has what is seen of the block, which is on disk unless it is dirty |
| CacheSystem.NotRecycled | week1/xv86/xv6-public/bio.c:78-91 | a buffer keeps its block while it is referenced or dirty, and stays dirty until it is written |
| BufferCache.Relink | week1/xv86/xv6-public/bio.c:129-138 | unhooking a buffer and hooking it in at the front keeps a circular doubly linked permutation of all buffers |
| BufferCache.PutBuf | week1/xv86/xv6-public/bio.c:61-93 | changing one buffer keeps one buffer per block and agreement with the disk |
| Blocks.WordOfSetWord | week1/xv86/xv6-public/log.c:101-113 | a 32-bit word stored in a block is read back, and no other word changes |
| FileSystem.Fs.constructor | week1/xv86/xv6-public/mkfs.c:84-112 | a file system whose map marks the metadata and nothing else, and whose inodes have no blocks, satisfies the invariant |
| FileSystem.FormattedBits | week1/xv86/xv6-public/mkfs.c:237-251 | marking block after block from zero leaves exactly the used blocks marked |
| FileSystem.Fs.Balloc | week1/xv86/xv6-public/fs.c:56-79 | the lowest free block is marked and zeroed and nothing else changes; the panic is exactly a full disk |
| FileSystem.Fs.Bfree | week1/xv86/xv6-public/fs.c:81-95 | the block's bit and no other is cleared; the panic is exactly a bit already clear |
| DiskInode.DecodeEncode | week1/xv86/xv6-public/fs.c:221-236 | an inode stored by iupdate is read back by ilock, and the other seven inodes of the block are as they were |
| FileSystem.Fs.Iupdate | week1/xv86/xv6-public/fs.c:221-236 | the inode block, and only it, is rewritten and logged; the inodes on disk are as before but for this one, and the file system stays whole |
| FileSystem.Fs.Load | week1/xv86/xv6-public/fs.c:300-311 | the inode in memory is the one the inode block holds |
| FileSystem.Fs.Bmap | week1/xv86/xv6-public/fs.c:372-400 | the block of that slot; a missing one, and a missing indirect block with it, is allocated from blocks nobody owned, zeroed, and hung in that slot only; the invariant that no block is in two places and the map is exact is kept; the blocks changed are among those logged; it fails only on a full disk |
| FileSystem.Fs.Attach | week1/xv86/xv6-public/fs.c:378-391 | a new block of the inode itself is one that no slot of any inode had |
| FileSystem.Fs.AttachListed | week1/xv86/xv6-public/fs.c:392-398 | a new block in the indirect block likewise, with every other entry as it was |
| FileSystem.Fs.Itrunc | week1/xv86/xv6-public/fs.c:407-435 | the inode's blocks and no others are given back, each freed once, so the "freeing free block" panic is not reached, and the map stays exact; logged are the free-map blocks with their bits and the inode's block |
| FileSystem.Fs.Writei | week1/xv86/xv6-public/fs.c:480-511 | the bytes from off on are replaced or appended and the rest of the file stays; other files' blocks stay; the file keeps no holes; new blocks are the lowest free ones, as many as the longer file needs; exactly what is logged, which includes every block changed; it refuses exactly what it should and panics exactly if fewer blocks are free than it needs |
| FileSystem.Fs.Readi | week1/xv86/xv6-public/fs.c:452-477 | the result is the slice of the file cut off at its end; on a file without holes nothing is allocated or logged |
| FileSystem.Fs.WriteBlock | week1/xv86/xv6-public/fs.c:496-502 | one block's share of a write, what it logs, and that it stops only on a full disk with its slot still empty |
| FileSystem.WritingThen | week1/xv86/xv6-public/fs.c:496-502 | shares of consecutive blocks add up to the write |
| FileSystem.ChargedThen | week1/xv86/xv6-public/fs.c:496-502 | and so does what they log |
| FileSystem.NewExactly | week1/xv86/xv6-public/fs.c:480-511 | the slots that get a block are exactly those past the old end, and the indirect block if it is needed for the first time |
| FileSystem.NeedMissed | week1/xv86/xv6-public/fs.c:480-511 | a write that stops had fewer free blocks than it needs |
| FileSystem.LoggedCard | week1/xv86/xv6-public/fs.c:480-511 | data, indirect, free-map and inode blocks are different blocks, and their number is that of Bill |
| FileSystem.AllocatedOwned | week1/xv86/xv6-public/fs.c:56-79 | zeroing a newly allocated block disturbs no slot of any file |
| Tree.ListOwned | week1/xv86/xv6-public/fs.c:392-398 | an entry stored in an indirect block appears in that slot of that inode and nowhere else |
| Tree.DropOwned | week1/xv86/xv6-public/fs.c:407-435 | letting an inode's blocks go leaves every other block in its one slot |
| OpenFile.ChunkFits | week1/xv86/xv6-public/file.c:127-133 | a write of at most 3 * 512 bytes logs at most ten blocks, at any offset of any file and however the new blocks are spread |
| OpenFile.LongerChunk | week1/xv86/xv6-public/file.c:127-133 | such a write, of the code, logs more than ten blocks in exactly that case, told from the free blocks before it |
| SpreadDisk.LongerChunkTooLong | week1/xv86/xv6-public/file.c:127-133 | a file system and a write of 3 * 512 + 1 bytes that logs eleven blocks |
| CrashSafety.RunDurable | week1/xv86/xv6-public/log.c:125-234 | whatever every batch of operations keeps true of the blocks is true of the durable blocks in every run with crashes, of what a recovery at any moment leaves, and of the current blocks whenever no operation is under way |
| CrashSafety.FsDurable | week1/xv86/xv6-public/log.c:8-22 | so in every such run the blocks that recovery leaves hold a file system: every block in at most one slot, a free map that is exact, inodes readable from their blocks |
| CrashSafety.OperationRun | week1/xv86/xv6-public/log.c:125-234 | an operation that has logged every block it changed, at most ten, runs through begin_op, log_write and end_op without a panic, and readers then see exactly what it wrote: its batch keeps what it keeps |
| CrashSafety.ChunkBatch | week1/xv86/xv6-public/file.c:137-147 | one operation of filewrite is such a batch and keeps the file system's invariant, on a log of more than LOGSIZE blocks |
| CrashSafety.TruncBatch | week1/xv86/xv6-public/fs.c:331-345 | so is the truncation in iput, on a disk of at most nine free-map blocks |
| OpenFile.File.Write | week1/xv86/xv6-public/file.c:117-155 | the bytes written are an initial part of the source, all of it unless the file would grow too large; every operation logs at most ten blocks; off advances by what was written |
| OpenFile.File.WriteChunk | week1/xv86/xv6-public/file.c:137-147 | one operation of it: the piece is written or refused, at most ten blocks are logged, and every block that changes is one of them |
| OpenFile.File.Read | week1/xv86/xv6-public/file.c:96-114 | the slice at off, and no block logged or allocated outside an operation |
| OpenFile.OtherFileSame | week1/xv86/xv6-public/fs.c:480-511 | after a write to one file every other has the same slots, no more holes than before, and the same bytes |
| InodeCache.StepKept | week1/xv86/xv6-public/fs.c:190-345 | every step of ialloc, iget, idup, ilock, iupdate, iunlock and iput by any process keeps one entry per inode, exact reference counts, agreement with the disk, and an allocated inode behind every pointer, except an iget of a dead inode, which never does |
| InodeCache.RunSafe | week1/xv86/xv6-public/fs.c:190-345 | so it is in every run in which iget is given the caller's new inode or one that has links |
| InodeCache.NamedAlive | week1/xv86/xv6-public/fs.c:238-272 | an inode with a link, or just allocated by the caller, is neither free nor being freed |
| InodeCache.StepDisk | week1/xv86/xv6-public/fs.c:194-370 | an inode on disk changes in three ways only: ialloc gives a free one the type asked for and no links, the holder of its lock changes all but the type, and iput frees one without links |
| InodeCache.RunLeads | week1/xv86/xv6-public/fs.c:238-275 | in every run with live igets the pointer that iget returns leads to the inode asked for until it is dropped |
| InodeCache.NoPanic | week1/xv86/xv6-public/fs.c:288-312 | then ilock never finds type 0 |
| InodeCache.StrayPanics | week1/xv86/xv6-public/fs.c:288-312 | after an iget of a free inode that is not cached the next ilock panics |
| InodeCache.OneEntry | week1/xv86/xv6-public/fs.c:238-272 | two pointers to an inode are to one entry, and only one of them is inside its sleep-lock |
| InodeCache.LockedAgrees | week1/xv86/xv6-public/fs.c:288-312 | inside ilock the copy in memory is the allocated inode on disk |
| InodeCache.FreedAlone | week1/xv86/xv6-public/fs.c:331-345 | an inode is freed only without links and through the only pointer to it, and nobody has just been given it |
| InodeCache.StepNoOrphan | week1/xv86/xv6-public/fs.c:331-352 | an inode without links keeps somebody who will free it, exactly unless an iput checks it and finds another reference or an inode never read while all other pointers to the entry are past their own check |
| InodeCache.RunNoOrphan | week1/xv86/xv6-public/fs.c:331-352 | if every iput is of an inode that has a link or has been read through its pointer, and no iput checks while another of the same entry is between releasesleep and ref--, no inode is ever forgotten |
| InodeCache.OrphanReachable | week1/xv86/xv6-public/fs.c:331-352 | from any start with a file, a run of two processes that leaves it allocated without links or references |
| InodeCache.Icache.Iget | week1/xv86/xv6-public/fs.c:238-272 | the entry that has the inode, else the first unused one, and the panic exactly if there is neither |
| Names.Strncmp | week1/xv86/xv6-public/string.c:58-66 | zero exactly for names alike up to the first NUL or n characters |
| Names.Strncpy | week1/xv86/xv6-public/string.c:68-80 | the field names what the source names, and has nothing behind the first NUL |
| Names.Memmove | week1/xv86/xv6-public/string.c:31-50 | the destination holds the old source even if the two overlap, and nothing else changes |
| Names.Skipelem | week1/xv86/xv6-public/fs.c:595-619 | the first element, as a name of 14 characters, and a rest with the other elements; fails exactly if there is none |
| Directory.PutFind | week1/xv86/xv6-public/fs.c:551-578 | after a record is put in a free place lookup finds it under its name and everything else as before, and no name is there twice |
| Directory.Inodes.Dirlookup | week1/xv86/xv6-public/fs.c:524-547 | finds a record exactly if the map has the name |
| Directory.Inodes.Dirlink | week1/xv86/xv6-public/fs.c:551-578 | refuses exactly a name that is there; otherwise the record is in the first free place |
| Directory.Inodes.Link | week1/xv86/xv6-public/sysfile.c:115-164 | link counts stay exact, also when the count is taken back; fails exactly for a directory, a missing parent or a name that is there |
| Directory.Inodes.Unlink | week1/xv86/xv6-public/sysfile.c:184-241 | succeeds exactly if the name is there, is not a dot, and is not a directory in use; link counts stay exact and the "nlink < 1" panic is not reached |
| Directory.Inodes.Create | week1/xv86/xv6-public/sysfile.c:243-287 | a new inode under that name with one link, every other name and inode as before, link counts exact; an existing name is returned exactly for a file asked for as a file |
| Directory.Inodes.Isdirempty | week1/xv86/xv6-public/sysfile.c:168-180 | true exactly if no record follows the two dots |
| Directory.Inodes.Reclaim | week1/xv86/xv6-public/fs.c:331-345 | freeing an inode without links keeps every link count exact |
| Directory.NewInv | week1/xv86/xv6-public/mkfs.c:114-126 | the root mkfs makes, alone, has exact link counts |
| Directory.LinkedInv | week1/xv86/xv6-public/sysfile.c:115-164 | one record and one link more keep every live inode's count equal to the records that name it other than as "." |
| Directory.MadeInv | week1/xv86/xv6-public/sysfile.c:266-284 | a new directory, whose ".." is a link to its parent and whose "." is none, keeps them too |
| Directory.LinkedExactly | week1/xv86/xv6-public/sysfile.c:115-164 | one record and one link more keep them exactly if the directory has a link itself |
| Directory.MadeExactly | week1/xv86/xv6-public/sysfile.c:243-287 | and so does a new directory |
| Directory.UnlinkedFileInv | week1/xv86/xv6-public/sysfile.c:219-233 | so does removing the record of a file |
| Directory.UnlinkedDirInv | week1/xv86/xv6-public/sysfile.c:219-233 | and of an empty directory, which gives its link back to the parent |
| Directory.EmptyDir | week1/xv86/xv6-public/sysfile.c:168-180 | an empty directory has exactly one link and one record, in its parent |
| Paths.Namex | week1/xv86/xv6-public/fs.c:624-657 | inode j exactly if there is a chain to it: directories that begin at the root or the current directory, each with a record of the next element's name that leads to the next, the first such record; with `parent` exactly the directory that all but the last element lead to so, and the last name |
| Paths.ResolveExactly | week1/xv86/xv6-public/fs.c:624-657 | the walk down the elements ends at an inode exactly if there is such a chain to it |
| Paths.HolderExactly | week1/xv86/xv6-public/fs.c:624-657 | the walk that stops a level early ends at a directory exactly if all elements but the last lead to it |
| Paths.HolderResolves | week1/xv86/xv6-public/fs.c:624-657 | looking up the last name in the parent is looking up the path |
| Names.ElementsExactly | week1/xv86/xv6-public/fs.c:595-619 | the elements are the one way to see the path as non-empty names without a slash, with slashes between and around |
| Names.KeyExactly | week1/xv86/xv6-public/fs.c:516-521 | two names are one to dirlookup exactly if they agree up to the first NUL or DIRSIZ characters |
| Heap.Allocator.Malloc | week1/xv86/xv6-public/umalloc.c:63-90 | the block lies in what was free (or morecore brought), exactly it stops being free, live blocks stay disjoint and free units plus live units are what sbrk gave; next fit; morecore is called at most once and exactly if nothing fits; 0 exactly if sbrk then refuses |
| Heap.Allocator.Free | week1/xv86/xv6-public/umalloc.c:23-45 | exactly the block's bytes become free, the list stays address-ordered and fully coalesced, freep is just below it |
| Heap.Allocator.FindPlace | week1/xv86/xv6-public/umalloc.c:29-32 | the search of the ring ends within a lap at the neighbours of the block |
| Heap.Allocator.MoreCore | week1/xv86/xv6-public/umalloc.c:46-61 | the region joins the free bytes, merged with what it touches, and is large enough |
| Heap.Allocator.Lap | week1/xv86/xv6-public/umalloc.c:73-89 | one lap from freep finds the first block large enough, and fails exactly if there is none |
| Heap.Allocator.Take | week1/xv86/xv6-public/umalloc.c:75-84 | the tail of the block found, or all of it, becomes live and nothing else changes |
| Heap.CanonicalUnique | week1/xv86/xv6-public/umalloc.c:23-45 | an ordered, coalesced list is determined by its free bytes |
| Heap.FreeUndoesMalloc | week1/xv86/xv6-public/umalloc.c:23-90 | freeing what malloc cut off gives the list it started from |
| Heap.InsertedCanonical | week1/xv86/xv6-public/umalloc.c:33-43 | joining upwards and downwards is enough: a coalesced list stays coalesced |
| Heap.InsertedCovers | week1/xv86/xv6-public/umalloc.c:33-43 | and its free bytes are the old ones and the block's |
| Heap.FreeStored | week1/xv86/xv6-public/umalloc.c:33-43 | the headers in memory after free's two tests are those of the joined list |
| Heap.RequestCovered | week1/xv86/xv6-public/umalloc.c:68 | the units asked for cover the bytes exactly if the rounding does not wrap around, and then with less than a unit to spare |
| Heap.SaneRequests | week1/xv86/xv6-public/umalloc.c:46-55 | the sizes for which the argument of sbrk is a positive int |
| FramePool.FreeCount | week1/xv86/xv6-public/kalloc.c:59-95 | frames in use and frames on the list are all the frames there are |
| FramePool.FreeExactly | week1/xv86/xv6-public/kalloc.c:59-95 | the free frames are determined by those in use |
| VirtualMemory.Vm.constructor | week1/xv86/xv6-public/kalloc.c:47-53 | every frame is free once |
| VirtualMemory.Vm.Kalloc | week1/xv86/xv6-public/kalloc.c:82-95 | a frame nobody has, and 0 exactly if none is free |
| VirtualMemory.Vm.Kfree | week1/xv86/xv6-public/kalloc.c:59-77 | the frame is free, and no other frame's state changes |
| VirtualMemory.Vm.Walk | week1/xv86/xv6-public/vm.c:35-57 | the table with the page's entry; with alloc a missing one is added, empty, so no mapping changes; 0 exactly if it is missing and may not or cannot be added |
| VirtualMemory.Vm.Mappages | week1/xv86/xv6-public/vm.c:59-81 | the pages of the range, and none of any other directory, map consecutive frames; -1 exactly if frames for tables run out; the remap panic exactly if a page is mapped already and frames last until there |
| VirtualMemory.Vm.Setupkvm | week1/xv86/xv6-public/vm.c:118-137 | a directory with exactly the kernel's mapping: physical memory from KERNBASE on and the devices, writable but for the kernel's text, and no page of it for user mode; 0 exactly if fewer than 65 frames are free, and then every frame is back |
| VirtualMemory.Vm.Allocuvm | week1/xv86/xv6-public/vm.c:221-248 | every new page is a frame nobody had, full of zeros, that user mode can read and write, and no other page changes; or, exactly if frames for pages and tables are short, everything as before but for empty tables |
| VirtualMemory.Vm.Deallocuvm | week1/xv86/xv6-public/vm.c:255-279 | exactly the pages that begin between the two sizes are unmapped and their frames freed; the jump over missing tables misses none |
| VirtualMemory.Vm.Freevm | week1/xv86/xv6-public/vm.c:283-298 | all frames of that address space and no others are free |
| VirtualMemory.Vm.Copyuvm | week1/xv86/xv6-public/vm.c:314-345 | new frames with the parent's contents and flags, none of them anybody else's, or 0, exactly if frames are short, with every frame back; the panics exactly if the parent lacks a page below sz and frames last until there |
| VirtualMemory.Vm.CopyPage | week1/xv86/xv6-public/vm.c:325-339 | one page of the copy, or none and its frame back; the panics exactly on a page the parent does not have |
| VirtualMemory.FreevmUndoes | week1/xv86/xv6-public/vm.c:283-298 | freevm after setupkvm or copyuvm restores what every frame is used for |
| VirtualMemory.Rollback | week1/xv86/xv6-public/vm.c:236-245 | the undo of allocuvm takes back exactly what it did |
| PageTable.ReachesExactly | week1/xv86/xv6-public/vm.c:35-57 | user mode can use a page, or write it, exactly if the page's own entry allows it, since every directory entry does |
| PageTable.UnmapOwned | week1/xv86/xv6-public/vm.c:268-277 | clearing one entry unmaps that page alone and orphans exactly its frame |
| PageTable.TableOwned | week1/xv86/xv6-public/vm.c:44-54 | an empty table added to a directory changes no mapping of any address space |
| PageTable.LeafOwned | week1/xv86/xv6-public/vm.c:69-77 | a stored entry maps that page of that directory and no other |
| ProcessSystem.RunSafe | week3/findingPPID/proc.c:76-507 | in every state of every run on any number of CPUs: each process but init has a live parent; nobody sleeps in wait with a zombie child or without a child; a process that is not running has its stack in use at most by the CPU that holds ptable.lock; a pid that has exited is a zombie's or has been returned by wait, once |
| ProcessSystem.StepKept | week3/findingPPID/proc.c:76-507 | what each step of allocproc, fork, exit, wait, sleep, yield, the scheduler, wakeup and kill keeps |
| ProcessSystem.RunAllOn | week3/findingPPID/proc.c:333-420 | in every state of every run a process in state RUNNING is on exactly one CPU, and a CPU is on no other process unless it has the lock and is about to switch |
| ProcessSystem.ForkWhole | week3/findingPPID/proc.c:75-229 | fork, undisturbed, whatever kalloc and copyuvm answer: a runnable child with the next pid, its stack and its parent, or its slot free again; the parent as before, and nothing else changes |
| ProcessSystem.ScheduleWhole | week3/findingPPID/proc.c:333-366 | a turn of the scheduler: the process picked runs on that CPU and lets go of the lock, unless it is in wait |
| ProcessSystem.HandsOver | week3/findingPPID/proc.c:232-420 | exit, yield, sleep and wait leave the CPU holding the lock and ready to switch |
| ProcessSystem.RunNoneLeaked | week3/findingPPID/proc.c:75-229 | in every state of every run each slot is free, a process, or being filled by exactly one process, which is alive and in fork; so a fork that fails gives its slot back |
| ProcessSystem.LockReleased | week3/findingPPID/proc.c:280-420 | in every such state the CPU that holds ptable.lock can go on by itself, and within four steps has released it |
| ProcessSystem.OffStack | week3/findingPPID/proc.c:280-310 | when wait frees a zombie's stack no CPU is on it |
| ProcessSystem.PickReady | week3/findingPPID/proc.c:333-366 | the process the scheduler picks is on no CPU and has a stack to resume on |
| ProcessSystem.ExitWakes | week3/findingPPID/proc.c:232-275 | exit makes a parent sleeping in wait runnable |
| ProcessSystem.ReapKept | week3/findingPPID/proc.c:280-310 | taking a zombie apart keeps all of it |
| ProcessSystem.ExitKept | week3/findingPPID/proc.c:232-275 | so does leaving, with the children given to init |
| ProcessSystem.NotifyWakes | week3/findingPPID/proc.c:465-484 | after a wakeup nobody sleeps on its channel: those who did can run, and nothing else has changed |
| ProcessSystem.SleeperWoken | week3/findingPPID/proc.c:250-507 | a sleeper becomes runnable at a wakeup on its channel, at a kill, or at the exit of a child or of one that leaves init a zombie, and at no other step |
| ProcessSystem.RunDoze | week3/findingPPID/proc.c:426-507 | in every run, whoever goes to sleep on a channel is asleep on it until the next wakeup of that channel or a kill |
| ProcessTable.Ptable.Allocproc | week3/findingPPID/proc.c:75-95 | the first free slot with the next pid, and none exactly if the table is full |
| ProcessTable.Ptable.Exit | week3/findingPPID/proc.c:250-275 | what becomes of each slot: cur is a zombie, its children are init's, its parent and, if it leaves a zombie, init are awake, and nothing else changes |
| ProcessTable.Ptable.WaitScan | week3/findingPPID/proc.c:280-322 | the first zombie child, whose slot is then free with pid 0, no parent and no stack; else whether there is reason to sleep |
| ProcessTable.Ptable.Wakeup1 | week3/findingPPID/proc.c:465-475 | every sleeper on that channel, whatever the channel, becomes runnable and is otherwise as it was, and nobody else changes |
| ProcessTable.Ptable.Kill | week3/findingPPID/proc.c:488-507 | exactly the first process with the pid is marked; a sleeper becomes runnable, and nothing else of it changes |
| SpinLocks.StepInv | week1/xv86/xv6-public/spinlock.c:23-120 | what every step of acquire, release, pushcli and popcli on any CPU keeps |
| SpinLocks.RunExclusive | week1/xv86/xv6-public/spinlock.c:23-67 | in every run at most one CPU is between acquire and release of a lock |
| SpinLocks.AcquireWhole | week1/xv86/xv6-public/spinlock.c:23-42 | acquire of a free lock, undisturbed, step by step: the CPU has it, interrupts are off, one pushcli more is pending, and nothing else changes |
| SpinLocks.ReleaseWhole | week1/xv86/xv6-public/spinlock.c:44-67 | release, undisturbed: the lock is free, and interrupts are on again exactly if it was the outermost and they were on |
| SpinLocks.HoldingExact | week1/xv86/xv6-public/spinlock.c:88-95 | holding is true on a CPU exactly if it has the lock |
| SpinLocks.HolderMasked | week1/xv86/xv6-public/spinlock.c:23-67 | a CPU with a lock, or taking one, has interrupts off and ncli at least 1 |
| SpinLocks.PopRestores | week1/xv86/xv6-public/spinlock.c:101-120 | the popcli matching the outermost pushcli puts the interrupt flag back, and does not panic |
| SpinLocks.PanicsExactly | week1/xv86/xv6-public/spinlock.c:23-67 | the panics are exactly acquiring a lock one has and releasing one that one has not |
| SleepLocks.RunSafe | week1/xv86/xv6-public/sleeplock.c:22-42 | in every run the sleep-lock has at most one owner and a sleeper on a free lock implies a wakeup under way |
| SleepLocks.StepInv | week1/xv86/xv6-public/sleeplock.c:22-42 | what every step of acquiresleep and releasesleep, through sleep and wakeup, keeps |
| SleepLocks.AcquireWhole | week1/xv86/xv6-public/sleeplock.c:22-32 | acquiresleep of a free lock, undisturbed, makes the caller its owner |
| SleepLocks.SleepWhole | week1/xv86/xv6-public/sleeplock.c:22-32 | and of a taken one puts it to sleep with both spin locks free |
| SleepLocks.ReleaseWhole | week1/xv86/xv6-public/sleeplock.c:34-42 | releasesleep, undisturbed, frees the lock and leaves nobody asleep on it |
| SleepLocks.Exclusive | week1/xv86/xv6-public/sleeplock.c:22-42 | two owners are one |
| SleepLocks.HoldingsleepExact | week1/xv86/xv6-public/sleeplock.c:44-53 | holdingsleep is true exactly for the owner |
| SleepLocks.WakeupInFlight | week1/xv86/xv6-public/sleeplock.c:34-42 | that wakeup will reach the sleeper |
| Pipe.PipeBuffer.Write | week1/xv86/xv6-public/pipe.c:78-98 | the bytes of addr that fit are queued in order, across the wrap-around of the counters; n is returned exactly when all are in, and with some left over the pipe is full and the call gives up with -1 exactly if killed or nobody can read, and else sleeps |
| Pipe.PipeBuffer.Read | week1/xv86/xv6-public/pipe.c:100-121 | the caller gets the oldest bytes, n or all there are, and their number is returned; on an empty pipe with a writer nothing is taken and the call returns -1 if killed, and else sleeps |
| Pipe.PipeBuffer.FullIff | week1/xv86/xv6-public/pipe.c:83-85 | the comparison of wrapping counters tells a full pipe from an empty one |
| PipeSystem.RunFifo | week1/xv86/xv6-public/pipe.c:59-121 | over any interleaving of readers, writers and closes the bytes read are a prefix of the bytes written, and at most PIPESIZE are between |
| PipeSystem.RunDelivers | week1/xv86/xv6-public/pipe.c:59-121 | what readers got, turn after turn, is what writers put, but for the at most PIPESIZE bytes in the pipe |
| PipeSystem.RunReturned | week1/xv86/xv6-public/pipe.c:78-121 | in every state of every run a writer that returned has put all its bytes and returned their number, or returned -1 and was killed or had no reader; a reader holds the number of bytes it returned, and returned 0 of more only at the end of the file |
| PipeSystem.StepNoneLost | week1/xv86/xv6-public/pipe.c:78-121 | no reader sleeps on a pipe it could read and no writer on one it could fill, and a step keeps it so exactly if it is not a killed writer giving up on a pipe it filled while a reader sleeps |
| PipeSystem.RunNoneLostExactly | week1/xv86/xv6-public/pipe.c:78-121 | a run loses a wakeup in some state exactly if it has such a step |
| PipeSystem.RunNoneLost | week1/xv86/xv6-public/pipe.c:78-121 | when nobody is killed none is lost |
| PipeSystem.KilledWriterStrands | week1/xv86/xv6-public/pipe.c:86-89 | a run that leaves a reader asleep on a full pipe |
| Shell.Parser.Gettoken | week1/xv86/xv6-public/sh.c:265-308 | the token, its span and the new position |
| Shell.Parser.Parsecmd | week1/xv86/xv6-public/sh.c:327-342 | the loops and calls of the parser compute Parse, and end on every line |
| Shell.Parser.Parseline | week1/xv86/xv6-public/sh.c:344-359 | likewise one level down |
| Shell.Parser.Parseexec | week1/xv86/xv6-public/sh.c:415-446 | likewise for a simple command, with its panics |
| ShellGrammar.ParseExactly | week1/xv86/xv6-public/sh.c:265-446 | the parser gives tree c for a line exactly if the line is a sequence of lexemes from which the grammar of commands derives c, with redirections anywhere in a simple command, after a block, and pipes, lists and & without parentheses; otherwise it panics |
| ShellGrammar.LexOnly | week1/xv86/xv6-public/sh.c:265-308 | there is one way to see a line as lexemes and white space, the one gettoken takes |
| ShellGrammar.SimpleBack | week1/xv86/xv6-public/sh.c:371-446 | arguments and redirections in any order, before something that may follow, give one exec with the redirections around it, the last outermost |
| ShellGrammar.SimpleOnly | week1/xv86/xv6-public/sh.c:371-446 | and nothing else is taken for a simple command |
| ShellText.RoundTrip | week1/xv86/xv6-public/sh.c:327-446 | parsing the parenthesised printing of a tree gives the tree, for every tree of plain non-empty words with fewer than MAXARGS to a command |
| ShellText.LineBack | week1/xv86/xv6-public/sh.c:344-446 | also in front of a closing parenthesis, at any place of a line |
| ShellWords.ParserImage | week1/xv86/xv6-public/sh.c:327-446 | those are exactly the trees the parser can give |
| ShellWords.LineGood | week1/xv86/xv6-public/sh.c:344-446 | every word in the tree is a token of the line, and there are few enough |
| ShellWords.Nulterminate | week1/xv86/xv6-public/sh.c:449-493 | exactly the ends of the tree's words become NUL |
| ShellWords.Terminated | week1/xv86/xv6-public/sh.c:449-493 | then every argv and file is a C string equal to its token |
| Grep.MatchMeaning | week1/xv86/xv6-public/grep.c:72-106 | yes exactly if some split of the text fits the items of the pattern, with its anchors |
| Grep.Match | week1/xv86/xv6-public/grep.c:72-82 | the loop over the text decides it |
| Grep.Matchhere | week1/xv86/xv6-public/grep.c:84-96 | as does the recursion at one place |
| Grep.Matchstar | week1/xv86/xv6-public/grep.c:98-106 | and the loop over repetitions |

## Left out

- FileSystem.Fs.Writei: when an allocation panics, states that the invariant holds and the disk is full, not how much of the file was written.
- FileSystem.Fs.Readi: only files without holes, which is what writei keeps; the allocation of a hole while reading is not modelled.
- VirtualMemory.Vm.Deallocuvm: only for an old size within user memory, as all callers pass.
- VirtualMemory.Vm.Mappages: a user frame is not in use elsewhere, as every caller sees to.
- VirtualMemory.Vm.Allocuvm: the new pages are not mapped yet, as with every caller.
- WriteAheadLog.Wal.LogWrite: one operation at a time; LogSystem has the interleavings, with its test and its critical section apart.
- ProcessTable.Ptable.Kill: what a process does once `killed` is set is left to it; kill(0), which finds a free slot, only marks it.
- Device inodes: major and minor numbers, and reads and writes of devices, which bypass the block layer; Directory has the kind alone.
- fs.c under concurrency: FileSystem, Directory and Paths take one call at a time, as their callers hold the inodes' sleep-locks; the locks themselves are in SleepLocks and the inode cache in InodeCache.
- FileSystem works on the blocks that bread shows and on the set of blocks handed to log_write; CrashSafety takes that set through the log one operation at a time.
- CrashSafety.FsDurable: the invariant of blocks and inodes; link counts are in Directory, on records, and RunDurable is there for any property of the blocks.
- Size and addresses of an inode are words of its inode block; type, device numbers and link count are records in InodeCache and Directory. A directory is a sequence of whole records, not file contents.
- Directory.Inodes.Link: the parent has a link; LinkedExactly says what becomes of the link counts if not.
- Directory.Inodes.Create: likewise, with MadeExactly.
- Directory.Inodes.Unlink: the parent has a link; a removed directory keeps its records but they count for nothing, and a lookup of ".." in one is what StrayPanics is about.
- BufferCache.Bcache.Bread: the block's buffer is not locked by somebody else; CacheSystem has the waiting.
- InodeCache has one disk write for itrunc and the type, within one sleep-lock section, and the entry's reference count as a number without overflow.
- Waiting for sleep-locks inside the sequential classes, and the scheduling of who gets one. CacheSystem leaves open which free buffer is recycled; Bcache.Bget has that.
- Starvation, fairness and termination of waiting: the theorems are about safety, and about wakeups that are not lost.
- The order in which the scheduler looks at the table; any runnable process may be picked.
- sched's and swtch's saving of registers and of intena across a switch, and traps themselves.
- exit closing files and dropping the current directory, exec, system-call arguments, pid overflow.
- Open-file table entries: dup, close, reference counts of `struct file`, and fileread and filewrite on pipes.
- Frames are numbers, and the mapping of kernel addresses to frames is a fixed offset.
- malloc failing in the shell, runcmd, and grep's reading of lines.
- Drivers, boot, interrupt hardware, console.
- The custom lock calls of spinlock.c:122-204 and the other weekly variants of exit and kill.
