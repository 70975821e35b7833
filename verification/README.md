# Verified models of xv6

Dafny models of the stateful core of this xv6 kernel and three of its user programs, with proofs of what each
subsystem is for. Where the C code changes things in place, the model is a class or a method with loops, proved
against functions on values; protocols with many processes are state machines whose invariants hold in every run.
A `panic` is either shown to be out of reach, or, when it means that a resource is exhausted, appears as a result
or as a condition the caller can check.

| files | what they are about |
|---|---|
| `LogDisk`, `BufferCache`, `Log`, `LogSystem`, `LogRefinement` | the redo log: crash atomicity on the disk, the LRU buffer cache, the log code over the cache, concurrent calls with crashes, and that the log code takes their steps |
| `Blocks`, `Volume`, `Dinodes`, `Files` | bitmap allocation, block ownership, direct and indirect blocks, inodes as bytes, `readi`/`writei` as a flat byte sequence, chunked writes, allocating and freeing inodes |
| `Names`, `Directory`, `Paths`, `Links`, `Syscalls` | directories as finite maps, path lookup with reference counts, link counts and the directory tree, and link, unlink and create on the bytes of the disk |
| `Recovery` | what a disk says when its blocks are read as inodes, free map and directories, and that no crash makes it unsound |
| `SleepLock`, `ProcTable` | sleep and wakeup under sleep locks; fork, exit and wait |
| `Paging`, `AddressSpace`, `VirtualMemory` | page frames, two-level page tables, address spaces as flat maps |
| `Umalloc` | the user-level allocator with its coalescing circular free list |
| `ShellGrammar`, `ShellTokens`, `Shell` | the shell's grammar and round trip; its tokens and white space; the parser with its cursor; words ended in place |
| `Pipe`, `PipeRuns`, `Grep` | the pipe's ring buffer; readers and writers interleaved; the regular-expression matcher |
| `Params`, `Sets` | shared limits and `Option`; facts about finite sets and sums |

Some things that are not so are stated with the exact condition under which they are:

- An in-budget write can trip the guard of `log_write` unless the log region has more than LOGSIZE blocks
  (`mkfs.c:25` makes it exactly LOGSIZE): `LogSystem.GuardNeverTrips`. A write of a block that is in the transaction
  already can trip it in some run exactly if the region has at least two blocks: `LogSystem.AbsorbedWriteMayTrip`. A
  caller with budget left is safe in a region of more than LOGSIZE blocks: `LogSystem.UnspentCallFits`.
- `commit` finds no buffer for the log exactly when the transaction's blocks and the buffers other processes hold are
  together all buffers: `Log.CommitExhaustsCache`. On the disk `mkfs` makes, the transaction stops one short of NBUF, so
  one reader outside any call is enough: `Log.ReaderStopsCommit` is such a state, reached through the operations.
- A write runs out of blocks exactly when the file lacks more than are free: `Files.Fs.Writei`. So `unlink`, which
  writes inside the directory, never does: `Directory.ClearEntry`.
- `allocuvm` fails exactly when the pages and the page tables they lack are more than the free frames, and `copyuvm` exactly
  when the 65 frames of the kernel part, the pages and their tables are: `VirtualMemory.Machine.Allocuvm`, `Copyuvm`.
- A command prints to text that parses back exactly when each of its simple commands has fewer than MAXARGS words:
  `ShellGrammar.RoundTrip`.
- A new directory entry keeps link counts right if and only if the directory is itself linked:
  `Links.CountsRightIffLinked`, with a concrete store in `Links.CreateInRemovedDirectory`.
- A new process starts without a kill mark exactly if kill has not hit its slot since wait freed it. A free slot has pid
  0 or the pid of a failed fork, and `kill` does not look at the state: `ProcTable.KilledIffKillStands`.
- `>>` opens its file like `>`, although the comment in `parseredirs` sets it apart: `ShellGrammar.AppendParsesAsWrite`.

Constants (LOGSIZE 30, MAXOPBLOCKS 10, BSIZE 512, NDIRECT 12, DIRSIZ 14, PIPESIZE 512, MAXARGS 20, the memory layout)
are those of the C headers. Paging follows 32-bit paging as in section 4.3 of the Intel 64 and IA-32 Architectures
Software Developer's Manual, volume 3A; the allocator is that of section 8.7 of The C Programming Language, second
edition; the matcher is that of chapter 9 of The Practice of Programming.

## Model

| member | source | states |
|---|---|---|
| `LogDisk.CrashAtomicity` | log.c:177-202 | a commit cut off after any number of block writes, followed by any number of cut-off recoveries, ends with the home blocks all old if the first header write had not happened and all new if it had |
| `LogDisk.CommitFinishes` | log.c:192-202 | an undisturbed commit leaves every logged block at home, nothing else changed, and the log empty |
| `LogDisk.HeaderCommits` | log.c:101-113 | the disk right after the header write names the transaction, and recovering it applies the whole transaction |
| `LogDisk.CommitIsRecovery` | log.c:192-202 | from the header write on, a commit passes through exactly the disks of a recovery |
| `LogDisk.RecoveryRestarts` | log.c:115-122 | recovering from any intermediate disk of a recovery gives the same home blocks: redo is idempotent |
| `LogDisk.CrashesInRecovery` | log.c:115-122 | however often recovery is cut off, the one that finishes gives the home blocks of an undisturbed one |
| `LogDisk.RecoveredMeaning` | log.c:115-122 | recovery puts each logged block at its home, touches no other block, and empties the log |
| `LogDisk.InstallMeaning` | log.c:69-82 | after k installs the first k homes hold their log blocks and every other block, the log included, is unchanged |
| `BufferCache.Cache.constructor` | bio.c:38-56 | binit builds a valid LRU list of all buffers, none of them standing for a block of the root device |
| `BufferCache.Cache.FindCached` | bio.c:61-93 | the search from the most recently used end finds the buffer of the block if and only if there is one, and there is at most one |
| `BufferCache.Cache.FindUnused` | bio.c:61-93 | the search from the least recently used end finds an unreferenced clean buffer if there is any |
| `BufferCache.Cache.Bget` | bio.c:61-93 | returns the locked buffer of the block, recycling one if need be; waits exactly when the buffer is locked; fails exactly when the block is not cached and every buffer is referenced or dirty; nothing seen through the cache changes |
| `BufferCache.Cache.Reference` | bio.c:61-93 | the part under the cache lock: finds the buffer or recycles the least recently used unreferenced clean one, and counts the reference |
| `BufferCache.Cache.Bread` | bio.c:96-106 | returns the locked buffer with the logical contents of the block; waits exactly when someone holds it locked, and fails exactly when bget does; the disk is not written |
| `BufferCache.Cache.FinishBread` | bio.c:96-106 | a caller that waited gets, once the lock is free, the disk overlaid with the latest logged contents |
| `BufferCache.Cache.Bwrite` | bio.c:109-116 | the disk gets the contents of the buffer in one block write, and no reader sees a change |
| `BufferCache.Cache.Brelse` | bio.c:120-141 | drops one reference; the last one moves the buffer to the most recently used end of a still valid list; the cache stays consistent exactly if contents put into the buffer were logged or written by then |
| `BufferCache.Cache.Iderw` | memide.c:38-60 | writes a dirty buffer, or fills one that is not valid, one block and synchronously |
| `BufferCache.RecycleKeepsView` | bio.c:81-91 | giving a clean unreferenced buffer to another block keeps one buffer per block and changes no contents a reader can see: dirty buffers are never recycled |
| `BufferCache.FetchedMeaning` | bio.c:96-106 | bread hands out the disk overlaid with the latest logged contents, and changes nothing anyone sees |
| `BufferCache.UnlockedViewIsOverlay` | bio.c:96-106 | a block nobody holds locked reads as the disk overlaid with the pinned buffers |
| `BufferCache.WriteOutKeepsView` | memide.c:38-60 | writing a buffer out keeps the cache consistent and changes nothing a reader sees |
| `BufferCache.ReleasedKeepsView` | bio.c:120-141 | giving back a buffer whose contents were logged or written changes nothing a reader sees |
| `BufferCache.ReleasedIffSettled` | bio.c:120-141 | a release leaves the cache consistent if and only if the buffer, when valid and not dirty, holds what the disk holds |
| `BufferCache.ListIsByRecency` | bio.c:126-138 | however often buffers are given back, the list has them in the order of how long ago that was |
| `BufferCache.RecycledIsOldest` | bio.c:78-92 | the buffer that is recycled was given back longer ago than any other unreferenced clean one, or neither ever was |
| `BufferCache.FetchedAndReleased` | bio.c:96-141 | a block that is read comes locked, valid and with its contents; given back again it has the references it had, stays cached, and no other buffer changes |
| `Log.Log.Commit` | log.c:192-202 | while other processes hold buffers, the disks a commit passes through, and the last one, are those of LogDisk, block write by block write; at the end the logical disk is unchanged outside the log, and it is on the disk; their buffers, references and contents stay; room for the log is the exact condition of CommitExhaustsCache |
| `Log.Log.RecoverFromLog` | log.c:115-122 | boot: the disks on the way are those of a recovery, and the cache then shows the recovered disk |
| `Log.Log.WriteLog` | log.c:177-190 | copies the pinned blocks into the log in order, changing no home block on the disk and no buffer another process holds |
| `Log.Log.InstallTrans` | log.c:69-82 | copies the logged blocks home in order and unpins them, changing no other home block and no buffer another process holds of another block |
| `Log.Log.WriteHead` | log.c:101-113 | one block write puts the in-memory header on the disk; buffers other processes hold stay |
| `Log.Log.ReadHead` | log.c:85-96 | reads back the block numbers the header holds, and changes nothing else |
| `Log.FillHeader` | log.c:101-113 | the header block filled in word by word is the encoding of the list: the count in word 0, the home blocks after it |
| `Log.CopyHeader` | log.c:85-96 | the list copied out word by word is the decoding of the header block: as many as word 0 says, from word 1 on |
| `Log.Log.BeginOp` | log.c:125-141 | admits a call exactly when no commit is going on and its reservation fits, counting every call in progress |
| `Log.Log.LogWrite` | log.c:213-233 | pins the buffer and adds its block number unless it is there already; refuses exactly when the transaction is too big or no call is in progress; readers see no change |
| `Log.Log.EndOp` | log.c:145-174 | the last call in progress commits, with readers holding buffers: the transaction is empty, the disk shows everything, no call has lost a write, and the readers see what they saw |
| `Log.CommitExhaustsCache` | bio.c:78-92 | when commit asks for a log block, the cache has no buffer left if and only if the transaction and the clean buffers others hold are together all buffers |
| `Log.Log.FetchPair` | log.c:75-76 | the two reads of a round of write_log or install_trans succeed whenever the condition of CommitExhaustsCache leaves room |
| `Log.ReaderStopsCommit` | bio.c:78-92 | three calls fill the transaction up to the guard, a reader outside any call takes the last buffer, and the first read of the commit finds none, with fewer blocks in the transaction than buffers |
| `Log.OthersKept` | log.c:192-202 | after a commit every buffer another process holds stands for the same block, with as many references and the contents a reader sees |
| `Log.ReaderFetches` | file.c:97-110 | a reader that takes a buffer between two block writes of a commit changes neither disk nor view nor transaction |
| `Log.ReaderReleases` | file.c:97-110 | a reader that gives one back does not either |
| `Log.ReadersDuringCommit` | log.c:192-202 | a commit or recovery in progress stays one, at the same block write, when any number of readers came and went in between and a buffer is left for it, with one more for a recovery, whose blocks are not cached |
| `Log.CommitEnds` | log.c:192-202 | the block writes of a whole commit amount to the logical disk at home and an empty log |
| `LogSystem.DoKeepsInv` | log.c:125-174 | every step, with calls overlapping in any way and crashes anywhere, keeps: transaction plus unused budgets within LOGSIZE, no call in progress during a commit, no block named twice |
| `LogSystem.RunKeepsInv` | log.c:125-174 | that invariant, and a recoverable disk, hold in every state of every run |
| `LogSystem.AlwaysRecoverable` | log.c:115-122 | the on-disk log is well formed in every state, in the middle of a commit or recovery too |
| `LogSystem.Refines` | log.c:145-202 | each step refines a two-copy store: a write changes the volatile copy, the header write of a commit copies volatile to durable while no call is in progress, a crash copies durable to volatile |
| `LogSystem.CrashShowsWholeCalls` | log.c:145-202 | what a crash leaves is what the calls saw at the last header write, or at boot if there was none, a moment when no call was in progress: calls are never torn and no commit is lost |
| `LogSystem.InBudgetFits` | log.c:213-233 | with more than LOGSIZE log blocks, a new block within budget never trips the guard |
| `LogSystem.GuardNeverTrips` | log.c:213-233 | over all runs, a new block within budget never trips the guard if and only if the log region has more than LOGSIZE blocks |
| `LogSystem.AbsorbedWriteMayTrip` | log.c:213-233 | some run reaches a state where rewriting a block of the transaction trips the guard, if and only if the log region has at least two blocks |
| `LogSystem.UnspentCallFits` | log.c:213-233 | with more than LOGSIZE log blocks, a call that has budget left never trips the guard, for a new block or an old one |
| `LogSystem.CrashesKeep` | log.c:115-202 | whatever property of home blocks the calls keep between moments with none in progress, as long as nothing crashes, holds of every recovered disk after any number of crashes |
| `LogSystem.BurstsAreEnough` | log.c:125-174 | it is enough that each burst of calls, from a moment with none in progress to the next one, keeps the property |
| `LogSystem.StretchWrites` | log.c:213-233 | without a crash the calls see in each home block the last contents logged, or what they saw before |
| `LogSystem.HomesChangeOnlyByInstall` | log.c:69-82 | in every run a home block changes on the disk only by the install write of a commit or recovery that names it |
| `LogRefinement.Begin` | log.c:125-141 | begin_op admits a call exactly when the begin step of LogSystem is enabled, and takes that step |
| `LogRefinement.Write` | log.c:213-233 | changing a held buffer and logging it is the write step of LogSystem, refused exactly when that step is not enabled |
| `LogRefinement.End` | log.c:145-174 | end_op is the end step and, for the last call, all flush steps of the commit after it, through the same disks one by one |
| `LogRefinement.Recover` | log.c:115-122 | recovery at boot is a crash step from whatever the system was doing on that disk, and all repair steps after it |
| `LogRefinement.FlushedSteps` | log.c:192-202 | each block write of the commit is one flush step |
| `LogRefinement.RepairedSteps` | log.c:115-122 | each block write of the recovery is one repair step |
| `LogRefinement.SeenIsVolatile` | bio.c:96-106 | what is read of a block nobody has locked is what the calls see in LogSystem |
| `Volume.TakenOk` | fs.c:56-78 | a block whose bit is clear is neither metadata nor owned, and taking it keeps bitmap and ownership in step |
| `Volume.TakenBlock` | fs.c:41-78 | taking a block sets its bit and no other, zeroes its 512 bytes, and changes no other block |
| `Volume.AttachedOk` | fs.c:392-420 | hanging a taken block into the next slot, or as indirect block, keeps every block owned once and files without holes |
| `Volume.TruncatedOk` | fs.c:427-455 | clearing exactly the bits of the blocks an inode owns keeps the invariant and every other file |
| `Files.Fs.Balloc` | fs.c:56-78 | returns the first free block, marked and zeroed, or fails exactly when every block is in use |
| `Files.Fs.Bfree` | fs.c:81-95 | clears the mark of a marked block and no other; "freeing free block" is excluded by the precondition its callers establish |
| `Files.Fs.Iupdate` | fs.c:220-236 | the 64 bytes of the inode in its block decode to the in-memory inode; the other inodes of the block, the other blocks and the device numbers stay |
| `Dinodes.PutInodeMeaning` | fs.h:29-36 | an inode written into its block reads back field by field, and the other seven are unchanged |
| `Dinodes.InodeLayout` | fs.h:29-36 | the fields lie in the 64 bytes in order, low byte first: type, major, minor and a signed link count in two bytes each, size and 13 addresses in four |
| `Blocks.BitPlace` | fs.c:64-69 | bit i of a bitmap block is the bit worth 1 << (i % 8) of byte i / 8 |
| `Files.Fs.Ialloc` | fs.c:194-214 | takes the first inode of kind 0, clears it and sets its kind, or finds that there is none; no block is lost and no file changes |
| `Files.Fs.SetLinks` | fs.c:220-236 | a changed link count is on the disk and logged; no file changes |
| `Files.Fs.Iput` | fs.c:351-373 | the last reference to an inode without links frees exactly its blocks and makes its kind 0, logging every block that changed; otherwise only the count changes |
| `Files.Fs.constructor` | mkfs.c:245-259 | a new disk satisfies the invariant: exactly the metadata blocks marked and no inode in use |
| `Volume.MarkedIsHeld` | fs.c:56-95 | no block leaks: a block after the metadata is marked if and only if a slot of an allocated inode holds it |
| `Files.Fs.Bmap` | fs.c:392-420 | the disk block of a file block, through the indirect block if need be; allocates, zeroed, only the block after the last; nothing changes if the block exists; fails only when the file lacks more blocks than were free |
| `Files.Fs.Readi` | fs.c:472-496 | returns the bytes of the file from off on, cut at its size; fails exactly for offsets past the end or wrapping; allocates nothing |
| `Files.Fs.Writei` | fs.c:501-531 | one flat overwrite of the file, growing it as needed; other files keep their bytes; the on-disk inode equals the in-memory one; errors change nothing; runs out of blocks if and only if the file lacks more, indirect block included, than are free; every block that changed was logged |
| `Files.OverwriteMeaning` | fs.c:501-531 | a write read back is what was written, the bytes around it stay, and the file is as long as need be |
| `Files.Fs.Itrunc` | fs.c:427-455 | frees exactly the blocks the inode owned, direct, indirect and data, and empties the file; no other file changes; every block that changed was logged |
| `Files.Fs.WriteTransaction` | file.c:117-156 | one chunk: the flat overwrite, logging at most 7 blocks on a disk with one bitmap block |
| `Files.Fs.Filewrite` | file.c:117-156 | on success the chunks are one write of all bytes; on failure a leading part is written; every transaction stays within MAXOPBLOCKS; runs out of blocks only if the whole write lacks more than are free, and then does not succeed |
| `Files.LoggedSize` | file.c:127-133 | a chunk touches at most 7 blocks: bitmap, inode, indirect, and four of data |
| `Names.Namecmp` | fs.c:536-540 | zero exactly when the names agree up to 14 bytes or the first zero byte |
| `Names.KeyMeaning` | fs.c:536-540 | two names count as one exactly if they agree in their first 14 bytes, up to and with the first zero |
| `Names.Strncpy` | fs.c:592 | the 14-byte field has the same key as the name, padded with zeroes |
| `Directory.Dirlookup` | fs.c:544-568 | finds the inode number the directory maps the name to, and the place of its entry; fails exactly when the name is not in the map; changes nothing |
| `Directory.Dirlink` | fs.c:571-598 | fails and changes nothing exactly when the name is there; panics exactly when every entry is live and the directory cannot have one more; otherwise the directory is the old map with the one name added in the first dead entry, names stay unique, dot names stay first, no other file changes, and what changed was logged |
| `Directory.FindDead` | fs.c:584-590 | the place of the first dead entry, or the end |
| `Directory.ClearEntry` | sysfile.c:236-238 | overwriting an entry with zeroes always succeeds, on a full disk too, takes exactly that name out of the map, and leaves the dot names first unless it was one of them |
| `Directory.MakeDots` | sysfile.c:291-292 | an empty directory gets "." and ".." as its first two entries and its whole map, or there is no free block |
| `Directory.Isdirempty` | sysfile.c:186-199 | true exactly when no entry after the first two is live, which with the dot names first means that the map has no other name |
| `Directory.OnlyDots` | sysfile.c:186-199 | with the dot names in the first two entries, that means the map holds no other name |
| `Directory.Adds` | fs.c:584-595 | writing a new name over a dead entry, or at the end, adds it to the map and keeps names unique |
| `Directory.Removes` | sysfile.c:236-238 | clearing a live entry removes its name from the map and no other |
| `Directory.PutBytes` | fs.c:592-595 | writing 16 bytes at an entry changes that entry alone, whichever blocks the bytes fall in |
| `Directory.EntryLayout` | fs.h:51-56 | an entry is 16 bytes: the inode number in two, low byte first, and 14 of name |
| `Paths.Skipelem` | fs.c:615-638 | takes off the first non-empty component: its 14-byte key, and a rest with exactly the remaining components; fails exactly when there is none |
| `Paths.ComponentsOf` | fs.c:615-638 | an element followed by the end or a slash is the first component |
| `Paths.JoinedComponents` | fs.c:615-638 | elements put behind slashes are the components again |
| `Paths.ComponentsAreAll` | fs.c:615-638 | the components of any path are non-empty, hold no slash, and together are all its other bytes in order |
| `Paths.WalkStep` | fs.c:653-671 | what following one component does to the target of a path, and to that of its parent |
| `Paths.Icache.Follow` | fs.c:653-671 | one turn of namex: ends, fails, stops at the parent, or moves on, with the reference moved along |
| `Paths.Icache.Namex` | fs.c:644-677 | returns the inode the components lead to, or the directory the last one is looked up in; the returned inode has one more reference and no other count changes, on failure none |
| `Links.DoKeepsInv` | sysfile.c:136-301 | every step of link, unlink, create and mkdir into a linked directory, and the last iput, keeps the counts right and the linked directories a tree: parents and children agree, and going up never comes back |
| `Links.LinkCountsAreRight` | sysfile.c:136-301 | in every run, with link calls interleaved, nlink is the number of entries other than "." in linked directories plus the links being made |
| `Links.DirectoriesAreATree` | sysfile.c:136-301 | in every run exactly one sequence of names leads from the root to each linked directory |
| `Links.CountsRightIffLinked` | sysfile.c:136-301 | a new entry keeps the counts right if and only if the directory it goes into is linked |
| `Links.UnlinkEffect` | sysfile.c:236-248 | the name is gone from its directory and from no other; its inode has one link less, and so has the directory for a subdirectory; nothing else changes |
| `Links.CreateEffect` | sysfile.c:271-297 | the new inode has its kind, one link and, as a directory, its dot names; the directory maps the name to it and has one link more for a subdirectory; nothing else changes |
| `Links.LinkEffect` | sysfile.c:150-180 | both halves of link together give the inode one link more and the directory the one name; the first half undone is nothing at all |
| `Links.CreateInRemovedDirectory` | sysfile.c:259-301 | a concrete store where creating a file in a removed directory leaves a count of 1 and no name |
| `Links.EmptyHasOneName` | sysfile.c:186-199 | an empty directory has link count 1: its entry in its parent, which its ".." names |
| `Links.ParentStaysLinked` | sysfile.c:239-242 | the directory that loses a subdirectory keeps a positive link count |
| `Links.FreshInv` | mkfs.c:117-128 | a new disk with its root directory satisfies the invariant |
| `Syscalls.Link` | sysfile.c:136-183 | on the bytes of the disk: fails exactly when a path leads nowhere, the source is a directory or the name is there, and then every inode and every byte of every file is as before; panics exactly when there is no room for the entry; otherwise takes the two link steps of Links, the map of the one directory gains the one name, and no other file and, but for link counts, no other inode changes; the volume stays sound exactly when the directory is linked; every block that changed was logged |
| `Syscalls.Unlink` | sysfile.c:202-257 | on the bytes of the disk: removes exactly a name that is there, is not a dot name and is not a non-empty directory, as the unlink step of Links; the map of the one directory loses the one name, every other file keeps its bytes and every inode all but its link count; a failing call changes nothing; the volume stays sound; "unlink: nlink < 1" and "unlink: writei" are out of reach |
| `Syscalls.Create` | sysfile.c:259-301 | on the bytes of the disk: opens an existing plain file, refuses other existing names, or makes inode, dot names and entry as the create step of Links, giving up only without an inode, a block or room; the new inode was free, has the kind asked for and, unless a directory, no bytes; the map of the directory gains the one name, and no other file or inode changes; sound exactly when the directory is linked |
| `Syscalls.Release` | fs.c:351-373 | the last reference to an inode without names is the release step of Links: that inode is cleared and its file empty, and no other inode or file changes |
| `Syscalls.Write` | fs.c:501-531 | writing into a file that is no directory is one overwrite of its bytes, changes no other file, inode or name, and keeps the volume sound; an error changes nothing |
| `Syscalls.Format` | mkfs.c:93-128 | a new disk with its root directory is sound, and can be made exactly if there is a second inode and a data block |
| `Recovery.CrashesLeaveSound` | log.c:115-202 | if each burst of calls gives the log what system calls log, then after any number of crashes at any moments recovery gives a disk that decodes to a sound volume: blocks owned once, free map right, names unique, link counts right, directories a tree |
| `Recovery.CallMade` | sysfile.c:136-301 | a system call of Syscalls that succeeds is such a call: its names change by steps of Links and what it changed was logged |
| `Recovery.CallKeepsSound` | log.c:213-233 | a stretch of a run that writes what such a call logged takes a sound disk to a sound disk |
| `Recovery.SoundFs` | fs.h:13-48 | what Syscalls keeps is what soundness of a decoded disk asks for |
| `Recovery.InodeOnDisk` | fs.h:39-42 | inode i of a disk is spelled by the sixteen words from 16 * (i % 8) on of block inodestart + i / 8 |
| `Recovery.BitOnDisk` | fs.h:44-48 | the bit of block b is bit b % 8 of byte b % 4096 / 8 of block bmapstart + b / 4096 |
| `Recovery.HeldIsSound` | fs.h:13-48 | a disk whose bitmap, inode and file blocks hold a volume as Files, Directory and Links keep it decodes to a sound volume |
| `Recovery.SoundIsOfHomes` | fs.h:5-24 | the meaning of a disk does not depend on its log blocks |
| `SleepLock.DoKeepsInv` | proc.c:470-550 | each step of any of the processes, with testing and setting the lock word apart, keeps the invariant of locks, owners, run states and pending wakeups |
| `SleepLock.MutualExclusion` | sleeplock.c:22-42 | in every run at most one process holds a sleep lock, and at most one is inside a spin lock or the process-table lock |
| `SleepLock.AcquireReturnsWithLock` | sleeplock.c:22-32 | in every run a call of acquiresleep, however often it sleeps and is woken or killed, returns only with the lock: `locked` is set, by the caller and with its pid, and the caller holds exactly what it held before and this lock; a caller that holds the lock already never returns |
| `SleepLock.ReleaseReturnsWithoutLock` | sleeplock.c:34-42 | in every run a call of releasesleep returns only without the lock: it is free, the caller holds all else it held before, and no process is left asleep on it |
| `SleepLock.OthersReturn` | sleeplock.c:44-53 | whole calls of holdingsleep, kill and yield leave the locks of the caller alone; holdingsleep answers whether the caller holds the lock; kill leaves its target marked |
| `SleepLock.CallInProgress` | sleeplock.c:22-53 | a call in progress stays in its own operation, on its own lock, until it returns |
| `SleepLock.HitWakes` | proc.c:532-550 | kill marks its target and leaves it awake, and changes the run state of no target that is awake |
| `SleepLock.NoLostWakeup` | sleeplock.c:22-42 | a process asleep on a lock always has a holder, or a releaser that has cleared the lock and has yet to look at it |
| `SleepLock.WakeupReachesAll` | proc.c:510-527 | when a releaser has finished its scan, no process is left asleep on the lock |
| `SleepLock.HoldingSleepIsRight` | sleeplock.c:44-53 | holdingsleep answers whether the caller holds the lock |
| `ProcTable.DoKeepsInv` | proc.c:225-359 | each step of fork, exit, wait, sleep, wakeup, kill and the scheduler keeps the invariant of the process table |
| `ProcTable.WaiterIsNotMissed` | proc.c:319-359 | in every run a process asleep in wait has no zombie child, and has a child that can still exit |
| `ProcTable.ZombieHasLiveParent` | proc.c:274-315 | in every run the parent of a zombie is neither unused nor a zombie nor half made |
| `ProcTable.PidsAreUnique` | proc.c:115-135 | in every run two slots in use have different pids |
| `ProcTable.ReturnedOnce` | proc.c:319-359 | wait returns a pid only after that process exited, and never the same one twice, through reparenting to init |
| `ProcTable.WakeupLeavesNoSleeper` | proc.c:510-527 | in every run a wakeup leaves no process asleep on its channel, whatever the channel, makes those that were runnable and touches no other slot |
| `ProcTable.KilledIffKillStands` | proc.c:332-358 | in every run a slot is marked killed if and only if kill hit it after the last time wait freed it; so a new process is born killed exactly if kill found its free slot, as kill(0) does |
| `ProcTable.ReapedStartsUnmarked` | proc.c:332-345 | a slot that wait freed and no kill hit since is not marked killed |
| `ProcTable.StateTurns` | proc.c:116-550 | in every run a slot changes state only along the nine turns of a process, each by the step it belongs to |
| `ProcTable.StepTurns` | proc.c:116-550 | and every step takes its slot along its turn: fork, exit, wait, sleep, wakeup, kill, scheduler and yield |
| `ProcTable.ExitSlots` | proc.c:274-315 | exit hands every child to init, makes runnable exactly the parent asleep in wait, and init asleep in wait if an orphan is a zombie, and changes nothing else of any slot |
| `ProcTable.ProcessTable.Wakeup1` | proc.c:510-518 | slot by slot: a process asleep on the channel is made runnable and keeps all else, every other slot stays as it is |
| `ProcTable.ProcessTable.Allocproc` | proc.c:115-135 | takes the first unused slot and the next pid, or finds that there is none |
| `ProcTable.ProcessTable.Exit` | proc.c:297-313 | the scan with its nested wakeups is the simultaneous reparenting and waking that ExitSlots describes |
| `ProcTable.ProcessTable.Wait` | proc.c:325-358 | returns the first zombie child and frees its slot, with no pid, no parent and no kill mark left; or finds nothing to wait for, or sleeps, exactly when each applies; no other slot changes |
| `ProcTable.ProcessTable.Kill` | proc.c:532-550 | marks the first slot with the pid and leaves it awake, changing no other slot and no other state, or finds none |
| `Paging.RemappedOk` | vm.c:60-80 | mapping a held frame, or unmapping a page, keeps frames and page tables a partition and changes one page of one address space |
| `Paging.AddedTableOk` | vm.c:35-55 | a new zeroed page table changes no mapping of any address space |
| `Paging.EntryParts` | mmu.h:104-105 | an entry is the frame number above twelve bits of flags |
| `AddressSpace.StepIsolates` | vm.c:221-279 | work on one address space leaves the map and the contents of every other as they were |
| `VirtualMemory.Machine.constructor` | kalloc.c:46-54 | after boot exactly the frames of the range are free, and none is in a page table |
| `VirtualMemory.Machine.Kalloc` | kalloc.c:83-96 | takes the head of the free list and changes no memory, or returns 0 exactly when the list is empty |
| `VirtualMemory.Machine.Kfree` | kalloc.c:60-78 | fills the frame, and no other, with bytes of 1 and puts it at the head of the free list |
| `VirtualMemory.Machine.Walkpgdir` | vm.c:35-55 | the page table for a page, made if asked for; null exactly when there is none and none can be made; no mapping changes and frames are conserved |
| `VirtualMemory.Machine.Mappages` | vm.c:60-80 | maps the touched pages to consecutive frames and nothing else; fails exactly when the page tables they lack are more than the free frames, and then the first ones are mapped |
| `VirtualMemory.Machine.Deallocuvm` | vm.c:255-279 | unmaps and frees exactly the pages from newsz to oldsz, and terminates |
| `VirtualMemory.JumpClears` | vm.c:266-268 | jumping over an absent page table clears as much as visiting each of its pages |
| `VirtualMemory.Machine.Allocuvm` | vm.c:221-249 | on success the new pages are zeroed, writable and the user's, and nothing else changes; fails exactly when the pages and the page tables they lack are more than the free frames, and then the map is the old one and only empty page tables were kept |
| `VirtualMemory.GrowsOnlyTables` | vm.c:221-249 | an address space that maps what it mapped has gained at most empty page tables: every user frame is back |
| `VirtualMemory.Machine.Freevm` | vm.c:283-298 | frees the directory, its page tables and its user pages, and no other frame |
| `VirtualMemory.Machine.Setupkvm` | vm.c:118-136 | a new address space that maps the kernel and nothing else; fails exactly when fewer than 65 frames are free, and then every frame is back |
| `VirtualMemory.KernelMapMeaning` | vm.c:105-115 | the four regions map physical memory once at KERNBASE, text read-only, and the devices at their own addresses |
| `VirtualMemory.KernelAddresses` | memlayout.h:3-9 | in addresses: 0x80000000 up to 0x8E000000 is memory from 0 on, from 0xFE000000 on addresses are their own, and nothing else is mapped |
| `VirtualMemory.KernelFlags` | mmu.h:94-96 | in an address space as setupkvm makes it no page has the user bit, all have the present bit, and exactly the kernel text lacks the write bit |
| `VirtualMemory.UserFlags` | vm.c:240-241 | the pages allocuvm adds have all three bits |
| `VirtualMemory.KernelTablesSize` | vm.c:105-115 | wherever the kernel data begins, the four regions take 64 page tables |
| `VirtualMemory.Machine.Copyuvm` | vm.c:315-345 | the child has frames of its own with the contents and flags of the parent's, the parent is unchanged; fails exactly when fewer frames are free than the kernel part, the pages and their page tables need, and then every frame is back |
| `VirtualMemory.NetZero` | vm.c:283-298 | making an address space and freeing it gives back exactly the frames and contents there were |
| `Umalloc.Allocator.Malloc` | umalloc.c:63-90 | a block large enough, apart from every live block, or null exactly when no free block fits and there is no more memory; at most one morecore; live blocks keep their contents; list and accounting stay valid |
| `Umalloc.Allocator.Free` | umalloc.c:24-44 | the block joins the circular, address-ordered list, merged with its neighbours; every other live block keeps its contents |
| `Umalloc.Allocator.FindPlace` | umalloc.c:24-32 | the search from the rover stops at the one element the block belongs after, also when it wraps around |
| `Umalloc.Allocator.Morecore` | umalloc.c:46-61 | adds at least the units asked for to the free list, or changes nothing when the kernel has no more |
| `Umalloc.FreedOk` | umalloc.c:24-44 | freeing keeps free plus live units equal to the units obtained, the list coalesced, and the others intact |
| `Umalloc.FreedCoalesced` | umalloc.c:33-43 | the two merges are enough: no two blocks on the list touch |
| `Umalloc.CarvedOk` | umalloc.c:74-83 | the block split off the tail lies apart from all live ones and leaves the list valid |
| `Umalloc.PayloadWrite` | umalloc.c:63-90 | whatever a program writes into its blocks, the allocator's structure is untouched |
| `Umalloc.UnitsFor` | umalloc.c:69 | the units are the fewest that hold the bytes and a header |
| `ShellGrammar.RoundTrip` | sh.c:327-446 | for every command tree with words of word characters, parsing its canonical text gives back the tree if each simple command has fewer than MAXARGS words, and is an error otherwise |
| `ShellGrammar.LineRoundTrip` | sh.c:344-359 | the same for a line inside a block, error included: the parser stops exactly at the closing parenthesis |
| `ShellGrammar.PipeRoundTrip` | sh.c:361-372 | the same for pipelines |
| `ShellGrammar.ExecRoundTrip` | sh.c:399-446 | the same for simple commands and blocks with their redirections |
| `ShellGrammar.NormalForm` | sh.c:327-446 | whatever text the parser accepts, its command has proper words and few enough, and its canonical text parses to the same command |
| `ShellGrammar.LineIsPrintable` | sh.c:344-359 | the same first half for lines |
| `ShellGrammar.AppendParsesAsWrite` | sh.c:374-397 | `>>` and `>` give the same redirection |
| `ShellTokens.BlankSeparates` | sh.c:262-308 | each of space, tab, carriage return, newline and vertical tab, anywhere in a text, separates tokens and is part of none: the tokens of the text are those before it and those after it |
| `ShellTokens.WordFirst` | sh.c:262-308 | characters that are neither white space nor symbols, up to the next one that is or the end, are one word |
| `ShellTokens.SymbolFirst` | sh.c:263-287 | each of the seven symbols is a token by itself |
| `ShellTokens.AppendFirst` | sh.c:287-293 | two `>` are one token |
| `ShellTokens.ParseByTokens` | sh.c:327-446 | two texts with the same tokens parse to the same command, or both fail |
| `ShellTokens.BlanksAreAlike` | sh.c:262 | any white space may stand for any other, be doubled and stand at either end without changing how a line parses |
| `ShellTokens.LineEndRoundTrip` | sh.c:327-342 | the round trip holds for a line with its newline |
| `ShellTokens.WordsArePlain` | sh.c:262-308 | no word of an accepted command holds white space or a symbol |
| `Shell.GetTok` | sh.c:265-308 | kind, extent and end of the next token are those of the grammar, and a word is a longest run of word characters |
| `Shell.PeekAt` | sh.c:310-320 | moves to the next non-space and says whether one of the symbols is there |
| `Shell.Parseredirs` | sh.c:374-397 | the loop finds the redirections the grammar gives, or fails as it does |
| `Shell.Parseargs` | sh.c:424-442 | the loop finds the words and redirections the grammar gives, or fails as it does |
| `Shell.Parseexec` | sh.c:415-446 | the cursor parser agrees with the grammar on commands |
| `Shell.Parseblock` | sh.c:399-413 | the cursor parser agrees with the grammar on blocks; "parseblock" is out of reach |
| `Shell.Parsepipe` | sh.c:361-372 | the cursor parser agrees with the grammar on pipelines |
| `Shell.Parseline` | sh.c:344-359 | the cursor parser agrees with the grammar on lines, and terminates |
| `Shell.Nulterminate` | sh.c:449-493 | writes a zero at the end of every word of the tree and nowhere else |
| `Shell.WordsSurvive` | sh.c:449-493 | after that every word reads back as exactly its token: no zero falls inside another word |
| `Shell.Parsecmd` | sh.c:327-342 | the whole buffer is parsed as the grammar says or refused, and every word of the result is a C string in place |
| `Pipe.Ring.Pipewrite` | pipe.c:78-98 | each stretch with the lock held stores the next bytes in order; it sleeps or fails only on a full ring, and fails exactly when nobody reads or the writer was killed; ring and counters become those of StoreAll |
| `Pipe.Ring.Piperead` | pipe.c:100-121 | returns the oldest bytes not yet read, as many as there are up to n; none, for n > 0, only when the pipe is drained and its write end closed; ring and counters become those of TakeAll |
| `Pipe.Ring.Pipeclose` | pipe.c:59-75 | closing an end changes no byte, and frees the pipe with the second end |
| `Pipe.Counters` | pipe.c:78-121 | the full and empty tests and the ring places are right even when the 32-bit counters wrap |
| `Pipe.StoreAllCarries` | pipe.c:83-95 | storing into the ring puts exactly the next bytes behind those in flight, and stops early only on a full ring |
| `Pipe.TakeAllCarries` | pipe.c:112-117 | the bytes read out of the ring places are the oldest in flight, as many as there are up to n |
| `PipeRuns.Fifo` | pipe.c:78-121 | in every interleaving of calls over the ring and its wrapping counters, the bytes read out of the ring are a prefix of the bytes stored into it, and at most PIPESIZE are in flight |
| `PipeRuns.DoKeepsInv` | pipe.c:78-121 | each stretch of any reader or writer, reading and writing the ring as Pipe.Ring does, keeps that the ring carries the bytes in flight |
| `PipeRuns.WritersKeepOrder` | pipe.c:78-98 | taking from the stored bytes those of one writer leaves the part of its buffer it has written, in order |
| `PipeRuns.EndOfFile` | pipe.c:100-121 | in every run a read of n > 0 bytes that returns none finds every stored byte read and the write end closed |
| `Grep.Match` | grep.c:72-82 | true exactly when the pattern's language has a string that begins at the start of the text under `^`, and anywhere in it otherwise |
| `Grep.MatchHere` | grep.c:85-96 | true exactly when some string at the start of the text is in the language, `*` counting before `$` |
| `Grep.MatchStar` | grep.c:99-106 | true exactly when some fitting characters are followed by a match of the rest |
| `Grep.BeginsStar` | grep.c:99-106 | a starred pattern begins a text exactly when the rest begins after some run of fitting characters |
| `Grep.PrintParse` | grep.c:85-96 | how a pattern is read loses nothing: what it was read as prints back as the same pattern, character by character |
| `Grep.ParsePrint` | grep.c:85-96 | and every pattern that can be read so, printed and read again, is itself |
| `Grep.PlainFinds` | grep.c:72-96 | a pattern without special characters is found exactly in the texts that contain it, with `^` in those that begin with it, with `^` and `$` in itself alone |
| `Grep.DotsFind` | grep.c:85-96 | n dots are found exactly in the texts of at least n characters |
| `Grep.StarFinds` | grep.c:99-106 | `^c*$` matches exactly the texts of nothing but c, and every text if c is a dot |

## Left out

- Hardware and boot: `ide.c`, `console.c`, `uart.c`, `kbd.c`, `lapic.c`, `ioapic.c`, `mp.c`, `trap.c`, assembly; the disk is the synchronous one of `memide.c`.
- Weak memory ordering, disk errors, torn single-block writes: steps are sequentially consistent and a block write is atomic.
- Interrupt masking and debugging fields in `spinlock.c` (pushcli, popcli, cpu, pcs): a spin lock is the process that holds it, and spinning is no step.
- Priority scheduling, `nice`, `ps`, `flock`, and the priority reset in `allocproc`.
- `exec`, `loaduvm`, `copyout`, `uva2ka`, `clearpteu`, and segment set-up.
- `runcmd` and the main loop of the shell, the line buffer of `grep`, and the other user programs; they are plumbing around the parts modelled.
- `mkfs.c` beyond the free map and root directory of a new disk, `printf.c`, `ulib.c`; from `string.c` only what names need.
- `iget`'s table of 50 slots, `ilock`'s reading from disk, device inodes and `fileread`; inode locks appear as steps that do not interleave.
- BufferCache.Cache.Bread: a caller that finds the buffer locked gets Waiting, and goes on with FinishBread; how it sleeps and is woken is `SleepLock`.
- Log.Log.BeginOp: says whether a call is admitted, not when a sleeping call asks again.
- Log.Log.Commit: a reader that has a block of the transaction locked makes commit wait; the method speaks of the case that none has, and ReaderReleases of the reader that lets go.
- Log.Log.EndOp: asks that transaction and readers leave a buffer, the exact condition of `CommitExhaustsCache`, without which the kernel panics; readers come and go during a commit in `ReadersDuringCommit`, not inside the method.
- Files.Fs.Filewrite: other calls on the same file between two chunks are not considered; each chunk by itself is WriteTransaction.
- Recovery.CrashesLeaveSound: that the calls of a burst, when they overlap, amount to some of them one after the other is its hypothesis; `CallMade` shows what each of them does.
- SleepLock.HoldingSleepIsRight: looking at lk->locked and at lk->pid is one step, inside the spin lock.
- Umalloc.Allocator.Malloc: does not model the 32-bit wrap of the byte count, as its callers stay far below it; sbrk is a parameter that answers with memory above all earlier memory, or with none.
- ProcTable.ProcessTable.Allocproc: pids are unbounded; wrap-around of `nextpid` is not modelled, nor are kernel stacks and contexts.
- ProcTable.ProcessTable.Wait: one round, from taking the lock to giving it up; the outer loop is the sequence of rounds in a run.
- VirtualMemory.Machine.Kfree: the free list is a sequence of frames and is not threaded through the pages themselves.
- VirtualMemory.Machine.Deallocuvm: sizes up to KERNBASE, which is what its callers pass; addresses are counted in pages where the code counts bytes.
- VirtualMemory.Machine.Allocuvm: asks that the pages to be added are unmapped, which the size of a process guarantees; otherwise the code panics with "remap".
- Paths.Icache.Namex: iput only counts; freeing an inode at its last reference is `Files.Fs.Iput`.
- Syscalls.Link: the results of the path lookups are parameters, and the count is below 32767, past which the code lets a short wrap; other calls between its two halves are the interleaved steps of `Links`.
- Syscalls.Create: the parent's count is below 32767, likewise; the device numbers of the new inode are not set.
- Shell.Parseexec: builds the tree from the words and redirections it collected, where the code fills the argv of a command that is already wrapped; malloc does not fail.
- Pipe.Ring.Pipewrite: sleeping and waking are results, so nothing is said about when a sleeper goes on; a writer that gives up does not wake readers, and no claim is made about them.
