# A verified model of the xv6 kernel and its tools

This project models the parts of an xv6 fork (a small Unix-like kernel with a
lottery scheduler, exit statuses and per-process time accounting) in which most
of the reasoning lies, and proves what they are for:

- the redo log over the buffer cache (`log.c`, `bio.c`), for every interleaving
  of system calls and a crash at any moment;
- the inode layer (`fs.c`, `file.c`): files as byte sequences, block ownership,
  directories and paths;
- page tables and the page allocator (`vm.c`, `kalloc.c`);
- the K&R allocator (`umalloc.c`);
- processes (`proc.c`, `sleeplock.c`, the clock in `trap.c`): life cycle, sleep
  locks, lottery;
- pipes (`pipe.c`);
- the shell's parser (`sh.c`) and the matcher of `grep.c`.

Concurrent code is a state machine over atomic steps: code that runs with a spin
lock held is one step, as is one disk write, and what happens without the lock,
the test for room at the start of `log_write` among it, is a step of its own.
Theorems about it speak of every run, or say of which. Sequential code that
changes things in place is a class or a method with loops, proved against a
function of the old state. `dafny verify dfyconfig.toml` checks everything.

## How the modules fit together

| component | modules |
|---|---|
| log and cache | `BlockLog` (the log on disk), `LogSystem`, `LogInvariant`, `LogSafety`, `LogTheorems` (all interleavings), `LogSpace`, `LogFull` (room in the header), `LogJam`, `LogTear` (what happens without), `LogTold` (the history, from the steps), `Journal` (the loops of `log.c`), `BufferCache` (the LRU ring of `bio.c`), `Sums` |
| files | `Words`, `Volume` (ownership), `FileBytes` (byte sequences), `InodeSteps`, `InodeLog` (what a write logs), `InodeLayer` (`fs.c`), `FileLayer` (`filewrite`), `DirNames`, `Directory`, `Paths` |
| memory | `PageTables`, `FreePages`, `VmSpec`, `PageCount`, `Vm`; `FreeList`, `HeapShape`, `Umalloc` |
| processes | `Processes` (loops over the table), `LifeCycle`, `LifeInvariant`, `LifeSafety`, `LifeTheorems`, `LifeKin`, `LifeTally` (told from the steps), `LifeEnds` (what can still happen); `SleepLock`; `Lottery` |
| pipes | `RingBuffer`, `Pipe`, `PipeHistory` (calls and what they returned) |
| tools | `ShellSyntax` (the parser as functions), `ShellRoundTrip`, `ShellMeaning` (the grammar), `ShellCorrect`, `ShellParser`; `Grep` |
| shared | `Basics`, `Counting` |

## Properties that fail, and exactly when

- `log_write` uses only `log.size - 1` blocks, while `mkfs.c:25` makes the log
  LOGSIZE blocks long. `LogFull.PanicReachable` is a run, with any cache of at
  least LOGSIZE buffers, in which three operations that stop at their
  reservations make it panic; `LogFull.ExactLogSize` shows that no run of such
  operations panics if and only if the log is longer than LOGSIZE.
- `log_write` tests for room before it takes the lock and not again. Two calls
  can pass the test together and append one block too many:
  `LogFull.OverflowReachable`, with the exact conditions in `LogFull.ExactRoom`
  and `LogFull.ExactCacheRoom`. `LogTheorems` is about runs in which each append
  finds room; `LogSpace.FrugalReachable` and `LogSpace.CacheReachable` say when
  that is all of them.
- What an append too many leads to depends on the cache. If it has no more
  buffers than the log has blocks and the header entries, as NBUF buffers over
  the log of mkfs have (`LogJam.MkfsTight`), every buffer is pinned, `bread` finds
  none for commit, and crashes stay harmless: `LogJam.AlwaysAtomic` holds of every
  run whatever. If the log is shorter than the cache, `write_log` runs over the
  block behind it and a crash leaves that on disk (`LogTear.TearReachable`).
  `LogTear.ExactlyAtomic` is the if-and-only-if.
- Even in a longer log, an operation that logs no more than its MAXOPBLOCKS
  distinct blocks can panic: `log_write` tests for a full header before it looks
  whether the block is in it. `LogFull.AbsorbedPanics` is such a run;
  `LogSpace.FrugalPanics` says that it takes a full header, and then the
  operation has used up its reservation; `LogSpace.NoPanic` that below
  MAXOPBLOCKS distinct blocks an operation is safe, however many calls it makes.
- `filewrite` sizes its chunks by LOGSIZE and not by what `begin_op` reserves.
  `InodeLog.Counted` gives the exact number of blocks a write logs,
  `FileLayer.WithinReservation` the exact condition for staying within the
  reservation, and `FileLayer.NineBlocks` the shortest write of whole blocks to
  an empty file that does not.
- A writer that finds itself killed at a full pipe returns without waking the
  readers. `Pipe.StepReaders` says that this is the only step that leaves a
  reader asleep with bytes to read, and `Pipe.KilledWriterForgets` is such a run.
- A failing `setupkvm` and a failing `mappages` in `copyuvm` keep pages.
  `PageCount.LosesPages` says exactly when, the contracts of `Setupkvm` and
  `Copyuvm` how many, and `PageCount.SourceLosses` gives numbers for the kernel's
  own table.
- `>>` redirects exactly like `>` (`sh.c:393-398`), so the canonical form of a
  line writes both as `>`.

## Model

| member | source | states |
|---|---|---|
| `BlockLog.RecoveredRecovers` | Assignment1/log.c:116-122 | Running recovery on a disk whose log replays to contents v leaves exactly v on the home blocks and an empty log. |
| `BlockLog.RecoveryIdempotent` | Assignment1/log.c:68-122 | Recovering twice is the same as recovering once. |
| `BlockLog.InstalledRecovers` | Assignment1/log.c:69-83 | A crash after any number of blocks of install_trans leaves a disk that still recovers to the same contents. |
| `BlockLog.HeaderCommits` | Assignment1/log.c:101-114 | Over a log area that holds the new contents, the single write of the header makes the disk recover to exactly those. |
| `Journal.Journal.LogWrite` | Assignment1/log.c:211-231 | Absorption: the header gains the block at most once; it panics exactly when the header is full or no operation is open; the block is pinned. |
| `Journal.Journal.WriteLog` | Assignment1/log.c:175-188 | Every disk in the course of write_log still recovers to the old contents, and the log ends up with the cached blocks. |
| `Journal.Journal.WriteHead` | Assignment1/log.c:101-114 | One disk write replaces the header by the in-memory one and leaves every other block alone. |
| `Journal.Journal.InstallTrans` | Assignment1/log.c:69-83 | Block by block, the disk becomes the disk with the log installed; every intermediate disk is a partial installation. |
| `Journal.Journal.Commit` | Assignment1/log.c:190-200 | There is one point in the sequence of disks before which every disk recovers to exactly the pre-state and from which on every disk recovers to exactly the post-state. |
| `Journal.Journal.WriteTransaction` | Assignment1/log.c:190-200 | Up to the write of the header every disk recovers to the pre-state; after it the disk recovers to the post-state. |
| `Journal.Journal.Finish` | Assignment1/log.c:190-200 | Installing and clearing the log keeps every intermediate disk recovering to the same contents and ends with the recovered disk. |
| `Journal.Journal.ReadHead` | Assignment1/log.c:85-97 | The in-memory header becomes the one on disk. |
| `Journal.Journal.RecoverFromLog` | Assignment1/log.c:115-122 | Recovery yields the promised home blocks, and a crash at any of its disk writes leaves a disk that recovers to the same contents. |
| `LogSafety.StepInv` | Assignment1/log.c:68-231 | Every step of every thread whose append finds room, log_write's unlocked test being a step of its own, and a crash at any moment, keeps the agreement of cache, header, disk and open operations. |
| `LogTheorems.CrashAtomicity` | Assignment1/log.c:68-122 | In every run in which each append to the header finds room: recovering the disk gives exactly the committed log_write calls, and no operation has calls on both sides of the commit point. |
| `LogTheorems.CommittedForever` | Assignment1/log.c:174-200 | In such runs, what is committed stays committed through any further steps and crashes. |
| `LogTheorems.EndedIsDurable` | Assignment1/log.c:145-172 | In such runs the last end_op commits: once recovery is over, whenever no system call is in progress and no commit is going on, the header is empty and every log_write call so far is durable. |
| `LogTheorems.CommitIsDurable` | Assignment1/log.c:190-200 | In such runs, from the write of the header to the end of the commit every log_write call so far is durable. |
| `LogTold.HistoryIsTold` | Assignment1/log.c:211-231 | In every run whatever, the history the theorems speak of is the record of the run's own steps: each log_write call with the number of its system call, the block its buffer was recycled for and the data last put into it, less what a crash lost; and what a crash keeps is what the last header covered. |
| `LogTheorems.GroupCommit` | Assignment1/log.c:125-172 | In such runs, committing implies no open operation; the header holds distinct blocks, no more than it and the log have room for, among them all blocks that open operations have logged. |
| `LogJam.OverflowJams` | Assignment1/bio.c:80-93 | On a cache of no more buffers than the log has blocks and the header entries, an append without room leaves every buffer pinned by a logged block. |
| `LogJam.JamStays` | Assignment1/log.c:175-188 | From then on no step of commit is possible, as bread finds no buffer for a log block, until the machine is restarted. |
| `LogJam.AlwaysAtomic` | Assignment1/log.c:68-231 | On such a cache, in every run whatever: recovering the disk gives exactly the committed log_write calls, and no operation is split. |
| `LogJam.AlwaysDurable` | Assignment1/log.c:174-231 | On such a cache, in every run whatever, what is committed stays committed. |
| `LogJam.AlwaysEnded` | Assignment1/log.c:145-172 | On such a cache, in every run whatever, the last end_op commits: with no system call and no commit in progress the header is empty and every log_write call is durable. |
| `LogJam.AlwaysNewest` | Assignment1/bio.c:96-106 | On such a cache, in every run whatever, a locked, valid, unmodified buffer of a home block holds the newest logged contents. |
| `LogJam.AlwaysAhead` | Assignment1/log.c:174-231 | On such a cache, in every run whatever, home blocks are untouched before the commit point and the dirty buffers are exactly the logged blocks. |
| `LogJam.AlwaysSound` | Assignment1/bio.c:61-93 | On such a cache, in every run whatever, one buffer per block, reference counts equal the users, one holder per lock. |
| `LogJam.MkfsTight` | Assignment1/mkfs.c:23-25 | The log of mkfs under the cache of param.h is such a case. |
| `LogTear.TearReachable` | Assignment1/log.c:175-188 | With more buffers than log blocks, and at most LOGSIZE log blocks, some run of operations that stop at their reservation reaches a disk that recovers to something else than the committed calls, because write_log has run past the end of the log. |
| `LogTear.ExactlyAtomic` | Assignment1/log.c:175-231 | With at most LOGSIZE buffers: no run is torn, be it of any operations or of those that stop at their reservation, if and only if the cache has no more buffers than the log has blocks. |
| `LogSpace.NoOverlap` | Assignment1/log.c:125-172 | In every run whatever, a commit never overlaps an operation, and what open operations have logged is in the header. |
| `LogSpace.AppendFollows` | Assignment1/log.c:211-231 | A call that has passed log_write's test still has its buffer locked, so that its append can follow. |
| `LogSpace.FrugalReachable` | Assignment1/log.c:125-231 | In a log of more than LOGSIZE blocks, every run of operations that log at most MAXOPBLOCKS distinct blocks is one in which each append finds room. |
| `LogSpace.CacheReachable` | Assignment1/bio.c:61-93 | If the cache has no more buffers than header and log have room for, every run whatever is one in which each append finds room. |
| `LogFull.OverflowReachable` | Assignment1/log.c:215-228 | If the cache has more buffers than that, some run appends a block without room, as two calls pass the unlocked test together; with a log of at most LOGSIZE blocks even one of operations that stop at their reservation. |
| `LogFull.OverflowMeans` | Assignment1/log.c:215-228 | Such an append leaves an entry whose log block lies outside the log, or outside the header's array. |
| `LogFull.ExactRoom` | Assignment1/log.c:215-228 | With at least LOGSIZE buffers: every append of operations that stop at their reservation finds room, in every run, if and only if the log has more than LOGSIZE blocks, or nothing but its header. |
| `LogFull.ExactCacheRoom` | Assignment1/log.c:215-228 | Every append finds room, in every run whatever, if and only if the cache has no more buffers than header and log have room for, or the log has nothing but its header; with NBUF buffers, if and only if the log has more than LOGSIZE blocks, or nothing but its header. |
| `LogSpace.StepSpace` | Assignment1/log.c:125-231 | Every step of operations that log at most MAXOPBLOCKS distinct blocks keeps the header plus all unused reservations within LOGSIZE. |
| `LogSpace.Reserved` | Assignment1/log.c:125-142 | In every run of such operations the header plus all unused reservations fit in LOGSIZE. |
| `LogSpace.FrugalPanics` | Assignment1/log.c:211-228 | In a log of more than LOGSIZE blocks and a run of such operations, log_write panics exactly when the header is full; then the block is one the operation has logged already and every open operation has used up its reservation. |
| `LogSpace.NoPanic` | Assignment1/log.c:211-231 | In such a run neither end_op panics nor a log_write of an operation that has logged fewer than MAXOPBLOCKS distinct blocks. |
| `LogFull.PanicReachable` | Assignment1/log.c:215-219 | With LOGSIZE blocks or fewer and any cache of at least LOGSIZE buffers, some run of operations that stop at their reservation reaches a log_write that panics, because the header takes one of the blocks. |
| `LogFull.ExactLogSize` | Assignment1/log.c:215-219 | For any cache of at least LOGSIZE buffers: no run of operations that stop at their reservation panics if and only if the log has more than LOGSIZE blocks. |
| `LogFull.AbsorbedPanics` | Assignment1/log.c:215-228 | However long the log: an operation that has logged its MAXOPBLOCKS blocks can panic when it logs one of them again, as the test for a full header comes before the search. |
| `LogTheorems.ReadsNewest` | Assignment1/bio.c:96-106 | In such runs, a locked, valid, unmodified buffer of a home block holds the newest logged contents. |
| `LogTheorems.WriteAhead` | Assignment1/log.c:174-231 | In such runs, before the commit point the home blocks on disk are the committed contents; the dirty buffers are exactly the logged blocks, one buffer each. |
| `LogTheorems.CacheSound` | Assignment1/bio.c:61-93 | In such runs, at most one buffer per block of a real device, reference counts equal the number of users, one holder per buffer lock. |
| `LogTheorems.CacheMatchesDisk` | Assignment1/bio.c:96-116 | In such runs, a valid clean buffer that nobody is modifying equals the disk. |
| `BufferCache.Bcache.constructor` | Assignment1/bio.c:38-56 | The ring holds all buffers once, most recently inserted first, and every buffer is unused. |
| `BufferCache.Bcache.FindCached` | Assignment1/bio.c:68-76 | Finds a buffer holding the block if and only if there is one. |
| `BufferCache.Bcache.FindVictim` | Assignment1/bio.c:81-91 | Finds the least recently used buffer that is unreferenced and clean. |
| `BufferCache.Bcache.Bget` | Assignment1/bio.c:61-93 | A cached block gains a reference; otherwise the least recently used recyclable buffer is taken over; it fails exactly when neither exists. |
| `BufferCache.Bcache.Brelse` | Assignment1/bio.c:120-141 | A buffer released by its last user moves to the front; the list stays a permutation of all buffers. |
| `BufferCache.MoveToFront` | Assignment1/bio.c:129-137 | Moving a buffer to the front keeps the list duplicate-free with the same elements. |
| `Volume.OwnershipExclusive` | Assignment1/fs.c:354-382 | No block is referenced by two slots, and a data block's bitmap bit is set if and only if some slot refers to it. |
| `Volume.AddrLayout` | Assignment1/fs.c:355-382 | File block bn lies where address bn of the inode says, or from the twelfth on where four bytes of the indirect block do, the lowest first. |
| `Words.WordBytes` | Assignment1/fs.c:371-374 | A word of a block is four of its bytes, the lowest first. |
| `Volume.GiveOwned` | Assignment1/fs.c:354-382 | Giving a free block to an empty slot keeps ownership exclusive. |
| `Volume.GiveKeeps` | Assignment1/fs.c:354-382 | Giving a block to a slot moves no mapped block of any file and changes none of its bytes. |
| `InodeLayer.FileSystem.constructor` | Assignment1/mkfs.c:92-112 | An empty volume satisfies what every operation keeps: no block is owned, every file is empty, exactly the blocks before the data are in use. |
| `InodeLayer.FileSystem.Balloc` | Assignment1/fs.c:56-79 | The first free block is marked and zeroed; None exactly when all blocks are in use. |
| `InodeLayer.FileSystem.Bfree` | Assignment1/fs.c:81-96 | Clears one bit, and reports the free of a free block, which panics. |
| `InodeLayer.FileSystem.Bmap` | Assignment1/fs.c:354-382 | Returns the address of the file block, allocating block and indirect block only where missing, and says exactly what it allocates and logs; no other file block is mapped and every mapped byte of every file survives; fails only past the largest file or on a full device. |
| `InodeLayer.FileSystem.Itrunc` | Assignment1/fs.c:389-417 | Frees exactly the blocks the inode's slots refer to, empties that file and no other; a free block is never freed. |
| `InodeLayer.FileSystem.FreeSlot` | Assignment1/fs.c:81-96 | The panic of bfree is unreachable from itrunc. |
| `InodeLayer.FileSystem.Iupdate` | Assignment1/fs.c:208-226 | The inode on disk becomes the one in memory. |
| `InodeLayer.FileSystem.Readi` | Assignment1/fs.c:432-464 | Returns the clamped slice of the file's bytes with holes as zeroes, changing nothing that any file reads as; without holes it changes and allocates nothing; fails exactly on a device without a driver, an offset past the end or a sum that wraps. |
| `InodeLayer.FileSystem.Writei` | Assignment1/fs.c:467-497 | Splices the source into the file's bytes, sets the size to the maximum, leaves every other file alone, keeps files free of holes and of blocks past their end and memory equal to disk for every inode; logs exactly LogCount blocks with one bitmap block; fails exactly on a device without a driver, an offset past the end or a size beyond the largest file. |
| `InodeLayer.FileSystem.WriteLoop` | Assignment1/fs.c:485-491 | After the loop the source is in place up to its length, nothing else has changed, and the blocks allocated and logged are known exactly. |
| `FileBytes.WroteContents` | Assignment1/fs.c:467-497 | Block-wise writes through direct and indirect blocks amount to one splice of a byte sequence. |
| `FileBytes.WroteNoHoles` | Assignment1/fs.c:467-497 | A write starting inside the file leaves no hole below the new size. |
| `FileBytes.ReadChunk` | Assignment1/fs.c:449-463 | The bytes of one block after bmap are the file's bytes there, zeroes for a hole. |
| `FileBytes.MapReadsSame` | Assignment1/fs.c:354-382 | Mapping a block of zeroes into a hole does not change what the file reads as. |
| `InodeLog.AccountNext` | Assignment1/fs.c:485-491 | One more iteration of the loop keeps the exact account: what is new is the blocks written and the indirect block for an entry, and what is logged is those, their bitmap blocks and the indirect block whose entry was set. |
| `InodeLog.Allocates` | Assignment1/fs.c:354-382 | A write allocates if and only if it ends in a block the file does not have, and sets an indirect entry if and only if that block is past the direct ones. |
| `InodeLog.LoggedSet` | Assignment1/fs.c:467-491 | With one bitmap block, the set of blocks logged by the loop: data blocks, bitmap block and indirect block, each exactly under its condition. |
| `InodeLog.Counted` | Assignment1/fs.c:467-497 | With one bitmap block, the number of distinct blocks logged, the inode block included, is LogCount, a function of size, offset and length. |
| `InodeLog.Bounded` | Assignment1/fs.c:467-497 | With any number of bitmap blocks, at most WriteCost distinct blocks are logged. |
| `InodeLog.SnugAfter` | Assignment1/fs.c:467-497 | After a write no file owns a block past its end. |
| `FileLayer.ChunkFits` | Assignment1/file.c:133-137 | A chunk of filewrite logs at most LOGSIZE distinct blocks, whatever the number of bitmap blocks. |
| `FileLayer.ChunkOverBudget` | Assignment1/file.c:133-137 | A full chunk logs more than the MAXOPBLOCKS blocks that begin_op reserves, wherever it is written. |
| `FileLayer.WithinReservation` | Assignment1/file.c:125-137 | A write stays within its reservation if and only if it touches at most ten blocks, nine if the file grows, eight if it gets a new block, seven if that block is past the direct ones. |
| `FileLayer.NineBlocks` | Assignment1/file.c:125-137 | Nine blocks written to an empty file log eleven blocks. |
| `FileLayer.CoveredReservation` | Assignment1/file.c:117-155 | Of the transactions of a filewrite, those beyond the reservation are exactly those that touch more blocks than that. |
| `FileLayer.MkfsOneMap` | Assignment1/mkfs.c:92-102 | The file system of mkfs has one bitmap block, behind the inode blocks and before the data. |
| `FileLayer.OpenFile.Write` | Assignment1/file.c:117-155 | The whole source is spliced at the file offset in consecutive transactions, each with the exact number of blocks it logs and within the log's size; on failure a prefix of whole chunks has been written and the offset agrees with it. |
| `DirNames.Strncmp` | Assignment1/string.c:58-66 | Zero exactly when the strings agree up to their NUL or the given length; otherwise the difference of the first characters in which they differ. |
| `DirNames.Strncpy` | Assignment1/string.c:68-79 | The string cut to length and padded with NULs. |
| `DirNames.MakeEntry` | Assignment1/fs.c:555-558 | An entry is the inode number in two bytes, the lower one first, and then the name. |
| `DirNames.UniqueMap` | Assignment1/fs.c:502-534 | A directory without repeated names is a map from names to inode numbers. |
| `DirNames.PlacedBinds` | Assignment1/fs.c:537-564 | An entry put in an unused place adds its binding and keeps all others. |
| `DirNames.PlacedUnique` | Assignment1/fs.c:537-564 | A new name keeps names unique. |
| `Directory.Dirlookup` | Assignment1/fs.c:510-534 | Finds an entry in use with the 14-byte name, or there is none. |
| `Directory.FindSlot` | Assignment1/fs.c:550-556 | Finds an unused entry, or the end of the directory when there is none. |
| `Directory.Dirlink` | Assignment1/fs.c:537-564 | Refuses exactly the names already bound; otherwise adds exactly one binding (none for an inode number that is zero in 16 bits), keeps all others, keeps names unique, and changes no other file. |
| `Paths.Skipelem` | Assignment1/fs.c:581-604 | Splits off the first nonempty component, cut to 14 bytes, and returns the path after it without leading slashes. |
| `Paths.ElemsRun` | Assignment1/fs.c:569-580 | A run of other characters up to a slash is one component of the path. |
| `Paths.Namex` | Assignment1/fs.c:610-643 | Resolution equals looking up the nonempty components one after the other, or stopping at the directory of the last one; it terminates by the remaining path. |
| `Paths.WalkIs` | Assignment1/fs.c:610-636 | A walk arrives at an inode if and only if there is a chain of directories in which each binds the next component, cut to 14 bytes, to the next inode. |
| `Paths.ParentIs` | Assignment1/fs.c:624-628 | With a parent asked for, the walk stops at the directory that the walk without the last component arrives at, and returns that component. |
| `FreePages.PopOk` | Assignment1/kalloc.c:82-95 | Taking the first page leaves a free list of exactly the other unused pages. |
| `FreePages.PushOk` | Assignment1/kalloc.c:59-77 | Freeing a page in use adds it to the free list exactly once. |
| `FreePages.FreeSetDetermined` | Assignment1/kalloc.c:59-95 | Which pages are free depends only on which are in use. |
| `Vm.Memory.constructor` | Assignment1/kalloc.c:31-43 | The boot state: no page is in use and every page from the end of the kernel on is on the free list. |
| `Vm.Memory.Kalloc` | Assignment1/kalloc.c:82-95 | A page nobody uses, or 0 exactly when none is free. |
| `Vm.Memory.Kfree` | Assignment1/kalloc.c:59-77 | The page is filled with junk and becomes free; only pages in use are ever freed. |
| `Vm.Memory.Freerange` | Assignment1/kalloc.c:45-52 | Every whole page of the range becomes free. |
| `PageTables.AddTableOwned` | Assignment1/vm.c:54-62 | A new, empty table maps and unmaps nothing in any address space. |
| `PageTables.PutPteAt` | Assignment1/vm.c:69-89 | Storing an entry changes the translation of one page of one address space. |
| `PageTables.Translates` | Assignment1/vm.c:44-64 | Which entry translates an address: its top ten bits choose the table and the next ten the entry. |
| `PageTables.MapOwned` | Assignment1/vm.c:69-89 | Mapping a held page keeps every page in one role. |
| `PageTables.UnmapOwned` | Assignment1/vm.c:275-281 | Unmapping gives up exactly the frame of that page. |
| `Vm.Memory.Walkpgdir` | Assignment1/vm.c:44-64 | Finds the table of a page or creates it, at the cost of one page, without changing any translation; fails exactly when there is none and none may or can be allocated. |
| `Vm.Memory.MapPage` | Assignment1/vm.c:77-86 | Maps one page and changes no other translation and no page contents. |
| `Vm.Memory.Mappages` | Assignment1/vm.c:69-89 | Maps consecutive pages to consecutive frames and nothing else; takes one page for each region without a table and fails exactly when there are fewer. |
| `Vm.Memory.Allocuvm` | Assignment1/vm.c:227-255 | Every byte from the rounded old size to the new one lies on a fresh zeroed page, and no page that begins outside these sizes changes in any address space; fails exactly when there are fewer free pages than pages and tables to add; then every user page looks as before, every data page is returned and only tables remain. |
| `VmSpec.GrownLook` | Assignment1/vm.c:227-255 | What allocuvm promises, seen by users: new pages of zeroes, writable, and every other page of every address space as it was. |
| `VmSpec.GrowEmpty` | Assignment1/vm.c:243-251 | Growing part of the way and deallocating restores everything but the tables. |
| `VmSpec.RestoredLook` | Assignment1/vm.c:243-251 | After a failed allocuvm every user page of every address space looks as before. |
| `VmSpec.GrownIsBytes` | Assignment1/vm.c:227-255 | The pages added are the ones that hold the bytes between the sizes, and no others. |
| `Vm.Memory.Deallocuvm` | Assignment1/vm.c:261-285 | Unmaps and frees exactly the mapped pages that begin between the two sizes, also across absent 4 MB regions; every byte below the new size stays mapped as it was. |
| `VmSpec.EmptySkip` | Assignment1/vm.c:272-274 | Skipping the rest of a region without a table misses no mapped page. |
| `VmSpec.EmptiedLook` | Assignment1/vm.c:261-285 | Pages of the range become absent, every other user page of every address space is as it was. |
| `VmSpec.EmptiedIsBytes` | Assignment1/vm.c:261-285 | The pages removed are the ones that begin between the sizes; every byte below the new size keeps its page. |
| `Vm.Memory.Freevm` | Assignment1/vm.c:289-304 | Frees every page of the address space once, and no other page. |
| `Vm.Memory.Setupkvm` | Assignment1/vm.c:127-143 | A new address space with exactly the kernel's mappings if and only if a directory and the kernel's tables can be allocated; otherwise every free page stays allocated and nothing else has changed. |
| `VmSpec.KernelPresent` | Assignment1/vm.c:114-124 | Every page covered by a row of the kernel's table is mapped as the row says. |
| `VmSpec.SourceKmapOk` | Assignment1/vm.c:114-124 | The kernel's own table has rows in the kernel half that do not overlap. |
| `VmSpec.KernelBytes` | Assignment1/vm.c:114-124 | The kernel finds every byte of physical memory at its address plus 0x80000000, writable except for its text, the devices at their own addresses, and nothing else. |
| `Vm.Memory.Copyuvm` | Assignment1/vm.c:321-349 | A copy with the same contents and flags under every byte below the size over pages of its own, nothing above it, with the kernel's mappings, if and only if there are CopyNeeds free pages; otherwise exactly CopyLoss pages stay allocated and nothing else changes. |
| `VmSpec.CopiedLook` | Assignment1/vm.c:321-349 | The child sees what the parent sees, on frames not in use before, and everyone else sees what they saw. |
| `VmSpec.CopiedIsBytes` | Assignment1/vm.c:321-349 | The pages copied are the ones that hold the bytes below the size, and no others. |
| `PageCount.LosesPages` | Assignment1/vm.c:127-349 | A failing copyuvm keeps pages if and only if some are free but too few for the kernel's part, or exactly one is left for the first page of a region. |
| `PageCount.SourceTables` | Assignment1/vm.c:114-124 | The kernel's own table needs 64 page tables. |
| `PageCount.SourceLosses` | Assignment1/vm.c:114-349 | Copying a one-page process with 64, 65 and 66 free pages keeps 64, none and one of them; it takes 67. |
| `PageCount.CopyTable` | Assignment1/vm.c:321-349 | A page to be copied needs a table of its own if and only if it is the first of its region. |
| `PageCount.FreeBalance` | Assignment1/kalloc.c:59-95 | Free pages and pages in use always add up to the same number. |
| `Vm.Memory.CopyAndFree` | Assignment1/vm.c:289-349 | copyuvm followed by freevm of the copy restores exactly the free pages there were. |
| `FreeList.PutGapped` | Assignment1/umalloc.c:24-44 | Giving back a block keeps the list in address order with no two free blocks adjacent. |
| `FreeList.PutCovers` | Assignment1/umalloc.c:33-42 | The free list covers what it covered before and the freed block, whatever is merged. |
| `FreeList.TakeCovers` | Assignment1/umalloc.c:75-83 | Exactly the allocated units leave the free list. |
| `HeapShape.PutShape` | Assignment1/umalloc.c:24-44 | Freeing keeps live blocks disjoint from each other and from free blocks, and all units accounted for. |
| `HeapShape.TakeShape` | Assignment1/umalloc.c:74-85 | Allocating keeps live blocks disjoint from each other and from free blocks, and all units accounted for. |
| `HeapShape.PutLinked` | Assignment1/umalloc.c:33-42 | The pointer updates of free leave a circular list through exactly the free blocks. |
| `HeapShape.CutDone` | Assignment1/umalloc.c:75-85 | Unlinking a block or cutting off its tail leaves a circular list and correct headers. |
| `HeapShape.Position` | Assignment1/umalloc.c:30-32 | The search of free stops exactly between the neighbours of the block. |
| `HeapShape.SinceFull` | Assignment1/umalloc.c:86-88 | The list can be exhausted only before sbrk has been asked, so the rescan ends. |
| `HeapShape.Conservation` | Assignment1/umalloc.c:24-90 | Free plus live units equal the units obtained from sbrk, and every unit is in exactly one block. |
| `Umalloc.Heap.FindPlace` | Assignment1/umalloc.c:29-32 | The search of free terminates at the place of the block. |
| `Umalloc.Heap.Free` | Assignment1/umalloc.c:24-44 | The block is no longer live, the heap stays well formed, and there is room for its size. |
| `Umalloc.Heap.Morecore` | Assignment1/umalloc.c:46-61 | At least 4096 units above everything so far join the free list, or sbrk failed and nothing changed. |
| `Umalloc.Heap.Malloc` | Assignment1/umalloc.c:63-90 | Cuts the end off the first block after freep that fits, leaving the rest of the list as it was; otherwise asks sbrk once, and fails exactly when sbrk does; the block is new and of the right number of units; it terminates, also after morecore. |
| `HeapShape.UnitsFor` | Assignment1/umalloc.c:69-69 | The fewest units that hold a header and the bytes asked for. |
| `Processes.Table.Wakeup1` | Assignment1/proc.c:509-517 | Every process sleeping on the channel becomes runnable; no other process and no other field changes. |
| `Processes.Table.Adopt` | Assignment1/proc.c:230-237 | All children go to init and no other parent changes; if one of them is a zombie nobody is left asleep on init; nothing else changes. |
| `Processes.Table.Exit` | Assignment1/proc.c:225-242 | The process is a zombie with its status and time, its children are init's, and of the sleeping processes exactly those waiting for its parent become runnable, and those waiting for init if it leaves a zombie. |
| `Processes.Table.WaitScan` | Assignment1/proc.c:602-651 | Reaps the first zombie child, frees its slot and returns its pid, status and five times; or finds that there are no children or the caller was killed; or decides to sleep. |
| `Processes.Table.Kill` | Assignment1/proc.c:531-549 | Marks the first slot with the pid and makes it runnable if it sleeps; fails exactly when there is none, and then changes nothing. |
| `Processes.Table.AllocProc` | Assignment1/proc.c:49-65 | Takes the first unused slot with a new pid, or there is none. |
| `Processes.Table.UpdateTimes` | Assignment1/proc.c:685-706 | stime, retime and rutime grow by one exactly in the processes that are SLEEPING, RUNNABLE and RUNNING; nothing else changes. |
| `LifeSafety.ExitInv` | Assignment1/proc.c:203-245 | exit keeps the invariant: no sleeping parent of a zombie, live parents, pids, reports and times. |
| `LifeSafety.ReapInv` | Assignment1/proc.c:256-278 | Reaping keeps the invariant and records what the child gave to exit. |
| `LifeSafety.TickInv` | Assignment1/trap.c:50-57 | The clock keeps the invariant. |
| `LifeSafety.StepInv` | Assignment1/proc.c:158-290 | Every step of every process, the scheduler and the clock keeps the invariant. |
| `LifeTheorems.NoLostChild` | Assignment1/proc.c:249-290 | In every run, a process asleep in wait has a child and none of its children is a zombie. |
| `LifeTheorems.ParentsAlive` | Assignment1/proc.c:203-245 | In every run, every process in use except init has a parent that has not exited, and init is alive. |
| `LifeTheorems.ReapedOnce` | Assignment1/proc.c:256-278 | In every run, each exit is either still a zombie or reported exactly once, with the status given to exit. |
| `LifeKin.StepKin` | Assignment1/proc.c:157-290 | Every step keeps: a process's parent is its creator, or init if the creator has exited. |
| `LifeKin.ToldToParent` | Assignment1/proc.c:203-290 | In every run each exit status is reported to the process that forked the child, or to init, and to init only if that process has exited. |
| `LifeTheorems.TimesAddUp` | Assignment1/proc.c:685-706 | In every run, sleeping, ready and running time plus ticks as an embryo equal the time since creation, or until exit. |
| `LifeEnds.EveryoneCanEnd` | Assignment1/proc.c:203-245 | From every state of every run, every live process but init can still be brought to exit, whether it sleeps, waits, forks or runs: there is a continuation, by kill, in which it is a zombie. |
| `LifeEnds.ZombieCanBeReaped` | Assignment1/proc.c:249-290 | From every state of every run, a zombie whose parent is not asleep can be reaped: there is a continuation in which it is reported. |
| `LifeTally.TimesCounted` | Assignment1/proc.c:685-706 | In every run from boot, stime, retime and rutime of each process and of each report are the numbers of ticks since its creation at which the run has it SLEEPING, RUNNABLE and RUNNING; ctime and ttime are the ticks before its creation and its exit. |
| `LifeTally.StatesFollow` | Assignment1/proc.c:434-549 | In every run from boot, the processes alive are those fork started that have not exited, those running the ones dispatched since they last gave up the processor, those asleep the ones whose channel has not been woken since, and those marked killed the ones kill hit. |
| `SleepLock.StepInv` | Assignment1/sleeplock.c:22-42 | Every step of every process keeps the agreement of spin locks, owner and sleepers. |
| `SleepLock.MutualExclusion` | Assignment1/sleeplock.c:22-42 | In every run at most one process owns the sleep lock, and the lock is marked exactly when one does. |
| `SleepLock.NoLostWakeup` | Assignment1/proc.c:468-526 | In every run a process sleeps on the lock only while it is held or a releaser is still before its wakeup. |
| `Lottery.Scheduler.Apply` | Assignment1/proc.c:298-338 | Policy 0 gives every slot ten tickets, policy 1 the runnable ones, policy 2 every slot twenty; nothing else but the priority changes, and the tickets of runnable processes are added up. |
| `Lottery.Scheduler.GetTickets` | Assignment1/proc.c:340-350 | The sum of the tickets of runnable processes. |
| `Lottery.DrawFits` | Assignment1/proc.c:655-682 | The number PRNG builds and everything on the way to it fit a signed 32-bit integer. |
| `Lottery.DrawBits` | Assignment1/proc.c:655-682 | Its bit fields, eleven, ten and ten bits from the top, are the upper halves of three consecutive numbers of the generator. |
| `Lottery.ShiftInAdds` | Assignment1/proc.c:671-677 | Shifting left by ten bits and xoring ten bits in is multiplying and adding. |
| `Lottery.Scheduler.Prng` | Assignment1/proc.c:655-682 | A number below the bound, 0 for bound 0, and the seed advances three steps. |
| `Lottery.SelectsOne` | Assignment1/proc.c:384-403 | A draw selects at most one process. |
| `Lottery.DrawsMatchTickets` | Assignment1/proc.c:384-403 | The draws that select a runnable process are exactly as many as its tickets. |
| `Lottery.Scheduler.Dispatch` | Assignment1/proc.c:384-403 | Finds the process the draw selects; none exactly when nothing is runnable. |
| `Lottery.Scheduler.Round` | Assignment1/proc.c:374-404 | A round with a runnable process dispatches exactly the one its draw selects; the first round gives every slot ten tickets. |
| `Lottery.Scheduler.SetPolicy` | Assignment1/proc.c:597-600 | Every number is taken over; tickets follow the policy it has, if any, and stay in range. |
| `Lottery.Scheduler.Leave` | Assignment1/proc.c:434-504 | Under policy 2 a sleeping process gains ten tickets below 100 and a yielding one loses one above 1. |
| `Lottery.TicketsInRange` | Assignment1/proc.c:298-350 | From the first round on, in every run, every slot has between 1 and 109 tickets. |
| `RingBuffer.PutQueue` | Assignment1/pipe.c:93-93 | Storing at the wrapped index and counting appends one byte to the queue. |
| `RingBuffer.GetQueue` | Assignment1/pipe.c:116-116 | Reading at the wrapped index and counting removes the oldest byte. |
| `RingBuffer.Tests` | Assignment1/pipe.c:85-106 | The 32-bit comparisons of the counters decide full and empty, also after they wrap. |
| `RingBuffer.FilledQueue` | Assignment1/pipe.c:84-94 | pipewrite's stores append to the queue in order and stop only at the end of the data or a full ring. |
| `RingBuffer.DrainedQueue` | Assignment1/pipe.c:113-117 | piperead takes the oldest bytes and stops only with enough or an empty ring. |
| `RingBuffer.Ring.Fill` | Assignment1/pipe.c:84-94 | Stores as many bytes as there is room for, in order, as Filled says. |
| `RingBuffer.Ring.Drain` | Assignment1/pipe.c:113-117 | Removes and returns the oldest bytes, as many as asked for and held, as Drained says. |
| `Pipe.WriteReturns` | Assignment1/pipe.c:78-99 | A writer's turn appends to the pipe as many of its bytes as fit; the call succeeds exactly when that is all of them, fails exactly when it is not and nobody reads or the writer was killed, and otherwise sleeps with what is left. |
| `Pipe.ReadReturns` | Assignment1/pipe.c:101-121 | A reader's turn sleeps exactly at an empty pipe that may still be written, and fails exactly there if the reader was killed; otherwise it returns the oldest bytes, as many as were asked for or all there are, and they leave the pipe. |
| `PipeHistory.StepFifo` | Assignment1/pipe.c:59-121 | Every step keeps: the bytes added to the pipe so far, in order, are the bytes that reads have returned, in order, followed by what the pipe holds. |
| `PipeHistory.StepHistory` | Assignment1/pipe.c:59-121 | Every step keeps what is told of each call: which bytes of the stream it stored, and what it returned. |
| `PipeHistory.RunFifo` | Assignment1/pipe.c:59-121 | In every run of any number of readers and writers, the bytes stored are the bytes that reads returned followed by what the pipe holds. |
| `PipeHistory.RunWrites` | Assignment1/pipe.c:78-99 | In every run, the bytes of the stream that a write stored are a prefix of its bytes in order; when it returns it reports success if and only if they are all of them, and failure only if it was killed or nobody can read. |
| `PipeHistory.RunReads` | Assignment1/pipe.c:101-121 | In every run, a read returns at most what it asked for, and nothing only if it asked for nothing or at the end: nobody can write and everything stored has been read, for good; it fails only if it was killed. |
| `Pipe.StepWriters` | Assignment1/pipe.c:78-121 | A sleeping writer always has a full ring and an open read end. |
| `Pipe.StepReaders` | Assignment1/pipe.c:78-121 | A sleeping reader has an empty ring and an open write end after a step if and only if the step is not a writer giving up after storing bytes while a reader sleeps. |
| `Pipe.RunWriters` | Assignment1/pipe.c:78-121 | In every run, kills included, sleeping writers have nothing to do. |
| `Pipe.RunReaders` | Assignment1/pipe.c:78-121 | In every run, kills included, in which no writer gives up after storing bytes while a reader sleeps, sleeping readers have nothing to do. |
| `Pipe.AliveNeverForgets` | Assignment1/pipe.c:78-121 | In a run without kills no writer does. |
| `Pipe.NeverBothAsleep` | Assignment1/pipe.c:78-121 | In every run, kills included, a reader and a writer never sleep at once. |
| `Pipe.KilledWriterForgets` | Assignment1/pipe.c:86-89 | A killed writer that fills the buffer returns without a wakeup, and a reader sleeps on with bytes to read. |
| `ShellSyntax.SkipIs` | Assignment1/sh.c:276-278 | Exactly the leading white space is skipped. |
| `ShellSyntax.WordOfIs` | Assignment1/sh.c:300-304 | A word is the longest run of characters that are neither white space nor symbols. |
| `ShellRoundTrip.LinePrinted` | Assignment1/sh.c:349-364 | Parsing a printed line returns the command and stops where the printed text ends. |
| `ShellRoundTrip.ExecPrinted` | Assignment1/sh.c:420-451 | Parsing a printed simple or parenthesised command with its redirections returns it. |
| `ShellRoundTrip.RoundTrip` | Assignment1/sh.c:332-347 | For every command with proper words and at most nine arguments, parsing its printed form returns the command. |
| `ShellRoundTrip.LineWell` | Assignment1/sh.c:349-451 | Whatever the parser accepts has proper words and at most nine arguments. |
| `ShellRoundTrip.Canonical` | Assignment1/sh.c:332-347 | Every line that parses means the same as its canonical form. |
| `ShellMeaning.LexIs` | Assignment1/sh.c:270-313 | The tokens gettoken finds are the only ones that spell the line: each as long as it can be, with white space around them. |
| `ShellCorrect.ParseDenotes` | Assignment1/sh.c:332-451 | For every line and command: the parser returns the command if and only if the line's tokens denote it, by a grammar that mentions no parser: '<' is input, '>' and '>>' are output, before, between and after the arguments, in order; then pipelines, '&', ';' and parentheses. |
| `ShellCorrect.ParseFails` | Assignment1/sh.c:332-451 | It panics if and only if the tokens denote no command. |
| `ShellParser.Parser.Gettoken` | Assignment1/sh.c:270-313 | The next token, its position as a whole word of the line, and the position after the white space that follows. |
| `ShellParser.Parser.Peek` | Assignment1/sh.c:315-325 | The next character after white space, with the position moved there. |
| `ShellParser.Parser.ParseRedirs` | Assignment1/sh.c:379-402 | Exactly the redirections that stand at this point, in order and with their direction, and no other follows; or a panic for a missing file name. |
| `ShellParser.Parser.ParseArgs` | Assignment1/sh.c:434-450 | Arguments and redirections of a simple command, or a panic for stray symbols or too many arguments. |
| `ShellParser.Parser.ParseExecNode` | Assignment1/sh.c:404-451 | A simple or parenthesised command as the grammar says; terminates. |
| `ShellParser.Parser.ParsePipeNode` | Assignment1/sh.c:366-377 | A pipeline as the grammar says; terminates. |
| `ShellParser.Parser.ParseLineNode` | Assignment1/sh.c:349-364 | A line as the grammar says; terminates. |
| `ShellParser.TokenSurvives` | Assignment1/sh.c:467-496 | No NUL overwrites part of a token. |
| `ShellParser.Nulterminate` | Assignment1/sh.c:454-498 | A NUL at the end of every token and nowhere else. |
| `ShellParser.Parsecmd` | Assignment1/sh.c:332-347 | The command that the line's tokens denote, or a panic if they denote none; afterwards every argument and file name, read as a C string, is its token. |
| `Grep.MatchHere` | Assignment1/grep.c:84-96 | True exactly when some prefix of the text is in the pattern's language, all of it for a final '$'. |
| `Grep.MatchStar` | Assignment1/grep.c:98-106 | True exactly when the rest matches after some run of fitting characters. |
| `Grep.Match` | Assignment1/grep.c:72-82 | True exactly when some substring, or a prefix after '^', is in the pattern's language. |
| `Grep.OrdinaryMatches` | Assignment1/grep.c:72-96 | Characters and dots match where they stand in the text character by character: anywhere, at the start after '^', at the end before '$', as the whole text with both. |
| `Grep.StarMatches` | Assignment1/grep.c:98-106 | A starred character alone matches exactly the texts of that character, and a starred dot every text. |
| `Grep.HereStar` | Assignment1/grep.c:89-90 | A starred character denotes any run of fitting characters before the rest. |

## Left out

- Hardware, interrupts and device drivers: a disk is a sequence of blocks with atomic block writes, the clock is a step.
- InodeLayer.FileSystem.Writei: a write to a device with a driver is answered `Device`; what the driver does with it is outside the model. The same holds of Readi.
- InodeLayer.FileSystem.Bmap: running out of blocks, a panic in the source, is a result that is promised only on a full device.
- The byte encoding of the bitmap and of inodes on disk: bits and inode records are values; file blocks, indirect blocks and directory entries are bytes.
- `ialloc`, `iget`, `iput`, `ilock` and the inode cache: the inode layer is modelled with the inode held and without reference counts.
- Directory operations on top of dirlink (create, unlink, link counts in `sysfile.c`).
- LogTear.TearReachable: writes past the end of the header's array, possible only with more than LOGSIZE buffers, are not followed further.
- Journal.Journal.LogWrite: a class without concurrency; `begin_op` and `end_op`, which wait for and wake other processes, are steps of `LogSystem`.
- LogSpace.NoPanic: is about operations within what `begin_op` reserves, which `filewrite` does not keep.
- `copyout`, `inituvm`, `loaduvm`, `clearpteu`, segment setup and the contents of trap frames.
- Vm.Memory.Allocuvm: a range that is already mapped, which panics in the source, is excluded by the precondition.
- Vm.Memory.Mappages: mapping over a present page, a panic, and a range across the start of the kernel are excluded by the precondition, as no caller asks for them.
- Vm.Memory.Copyuvm: a page below the size that is not mapped, which panics in the source, is excluded by the precondition.
- Vm.Memory.Deallocuvm: sizes above KERNBASE, which no caller passes, are excluded; there the address arithmetic wraps.
- Umalloc.Heap.Malloc: sizes whose arithmetic wraps in 32 bits are excluded; addresses are in units of one header and are not bounded.
- Umalloc.Heap.Free: takes a block that malloc returned and that has not been freed since, as the C library does.
- `exec`, file descriptors and current directories of processes, and memory of processes in fork and wait.
- LifeTheorems.TimesAddUp: ticks and process identifiers are unbounded numbers; the timer tick is one step although the source drops a lock inside it.
- Fairness: which runnable process is dispatched in the life cycle is arbitrary; the lottery is modelled by itself.
- Priorities: `priority_scheduling` overwrites every priority with 10 before using it, so the model has the constant.
- Freeing the pipe when both ends are closed, and the file table.
- `runcmd`, `execute_with_path`, `getcmd`, the messages printed on errors, and grep's line reader.
- ShellParser.Parsecmd: the nodes are values, so aliasing of the `execcmd` inside its redirections appears as arguments collected before the node is built; the line is a C string, without NULs.
