# Verified models of the kernel and its C library

This project models the parts of the system that carry the hardest promises, and proves those
promises for all inputs, all runs and all reachable states:

- **Storage.** The redo log over the buffer cache over a sector disk (`Disk`, `BufferCache`, `LogTrace`,
  `LogDriver`), the file system on top of it (`FsBlocks`, `FsOwnership`, `FsContent`, `FsSpace`, `Fs`), the image
  builder (`Mkfs`), and what a crash at any sector write of a `filewrite` leaves in the files (`FsCrash`).
- **Arithmetic.** 64-bit division and multiplication from 16-bit digits and wrapping 32-bit words
  (`Words`, `Digits`, `QDivRem`, `QuadSigned`).
- **Sorting and the heap.** `qsort` with its explicit stack, `bsearch`, and the circular free list of
  `malloc` (`Search`, `Malloc`).
- **Processes.** The process table, and a step machine of scheduler, `sleep`, `wakeup`, `fork`, `exit`,
  `wait` and `kill` for any number of CPUs, processes and locks (`ProcTable`, `SchedProtocol`); pipes
  (`Pipe`, `PipeProtocol`).
- **Text and memory.** The shell's parser (`Shell`), `grep`'s matcher (`Grep`), page tables (`Vm`) and
  the user stack that `execve` builds (`Exec`).

Code that works by changing things is modelled that way: arrays for digits and sorted elements, classes
for the cache, the log, the volume, the image under construction, the heap, the page frames, the pipe
buffer and the parser's cursor. Each method is proved against a specification, and the lemmas beside it
prove what the specification promises. Code running under one lock is one step of a step machine.

How the storage results fit together: `LogDriver.Log` shows that the code of `log.c`, running on the
cache of `bio.c`, makes exactly the sector writes that `LogTrace` describes; `LogTrace.CrashAtomicity`
says what any crash between two of them leaves; `Fs.Volume.Filewrite` records the calls of `log_write`
it makes, transaction by transaction; and `FsCrash.FilewriteSurvivesCrash` joins them.

## Model

| member | source | states |
|---|---|---|
| `Disk.ApplyElsewhere` | kernel/memide.c:35-64 | a sector that no write names keeps its content |
| `BufferCache.Cache.constructor` | kernel/bio.c:39-56 | the ring holds every buffer exactly once, and no buffer caches anything |
| `BufferCache.Cache.Lookup` | kernel/bio.c:70-81 | the buffer that caches the sector, or that none does |
| `BufferCache.Cache.Victim` | kernel/bio.c:84-92 | the least recently used buffer that is neither busy nor dirty, or that there is none |
| `BufferCache.Cache.Bget` | kernel/bio.c:62-95 | the buffer that caches the sector, or the least recently used one that can be recycled, is claimed; when it sleeps and when it panics, exactly; at most one buffer caches a sector, and the ring stays a permutation of all buffers |
| `BufferCache.Cache.Iderw` | kernel/memide.c:35-64 | writes a dirty buffer, else reads an invalid one; panics exactly on a buffer that is not busy, has nothing to do, or names no sector |
| `BufferCache.Cache.Bread` | kernel/bio.c:99-109 | the buffer is valid, and a newly fetched one holds the disk's sector; the disk never changes; it panics only if the sector is not cached and no buffer can be recycled |
| `BufferCache.Cache.Bwrite` | kernel/bio.c:112-120 | the sector takes the buffer's data with one write, exactly if the buffer is held and names a sector |
| `BufferCache.Cache.Brelse` | kernel/bio.c:125-143 | the buffer becomes the most recently used one and nothing but links and its busy flag changes |
| `BufferCache.UnlinkRemoves` | kernel/bio.c:132-133 | the two pointer writes of unlinking take exactly that element out of the doubly linked ring |
| `BufferCache.PushFrontAdds` | kernel/bio.c:134-137 | the four pointer writes of pushing put it at the front |
| `BufferCache.FetchCoherent` | kernel/bio.c:84-109 | recycling a buffer loses no pending block: cache and pending blocks together stay one map from sectors to blocks |
| `BufferCache.WriteCoherent` | kernel/bio.c:112-120 | after a write the sector is no longer pending, and disk and buffer agree |
| `BufferCache.PinCoherent` | kernel/log.c:193-193 | pinning a held buffer makes its data what every reader of the sector sees |
| `LogTrace.RecoveryCrash` | kernel/log.c:123-128 | a recovery cut short after any number of writes loses nothing: recovering again gives the same home sectors |
| `LogTrace.RecoverySurvivesCrashes` | kernel/log.c:123-128 | the same for any number of recoveries cut short |
| `LogTrace.LogPhase` | kernel/log.c:166-194 | before the commit record only log blocks have changed, and each listed sector's block holds the data last logged for it, absorption included |
| `LogTrace.CrashAtomicity` | kernel/log.c:75-155 | for every transaction, every crash point and any number of crashes in recovery, a completed recovery leaves the home sectors all as before if the commit record was not yet written, and all as last logged if it was |
| `LogTrace.CommitOutcome` | kernel/log.c:143-155 | an undisturbed transaction leaves the home sectors as last logged and the log clear |
| `LogDriver.Hold` | kernel/bio.c:99-109 | `bread` gets the sector exactly if nobody holds it and, when it is not cached, some buffer can be recycled; what it returns is the last logged data, else the disk's |
| `LogDriver.WriteHead` | kernel/log.c:108-120 | one sector write: count and first n sectors of the header replaced, the rest kept; it goes through exactly if the header block can be had |
| `LogDriver.InstallTrans` | kernel/log.c:76-87 | makes the installing writes in order, all of them if nobody holds what it needs |
| `LogDriver.SomeSpare` | kernel/bio.c:84-94 | if fewer buffers are held or pinned than there are, one can be recycled, so `bget` does not panic |
| `LogDriver.Log.ReadHead` | kernel/log.c:91-102 | the in-memory header lists the sectors of the header on disk |
| `LogDriver.Log.RecoverFromLog` | kernel/log.c:123-128 | makes exactly the recovery's writes, or a prefix of them if it stops; it completes if nobody holds a buffer |
| `LogDriver.Log.BeginTrans` | kernel/log.c:131-140 | the caller gets the log exactly if nobody has it, and then or already it is taken |
| `LogDriver.Log.CommitTrans` | kernel/log.c:143-155 | makes exactly the transaction's remaining writes, or a prefix of them; afterwards every buffer at rest equals the disk; it completes if nobody holds the sectors it needs and a buffer is left, and always if nobody holds a buffer and the log has no more than LOGSIZE sectors |
| `LogDriver.Log.LogWrite` | kernel/log.c:166-194 | adds one entry and makes one write, to the slot the sector has or gets; no home sector is written; it goes through exactly if a transaction is open, there is room, and the log block can be had; and always if fewer buffers are held or pinned than there are |
| `FsBlocks.WordPut` | kernel/fs.c:390-395 | a word of an indirect block reads back as stored, and no other word changes |
| `FsBlocks.WithBitIsOr` | kernel/fs.c:63-66 | setting a bit of the bitmap is the bitwise or of the code |
| `FsBlocks.WithoutBitIsAnd` | kernel/fs.c:90-96 | clearing it is the bitwise and with the complement |
| `FsBlocks.TestBitIsAnd` | kernel/fs.c:63-65 | the test `& m` is exactly whether the bit is set |
| `FsBlocks.BlockBitPut` | kernel/fs.c:63-66 | marking a block changes that bit of the bitmap and no other, both ways |
| `FsBlocks.DinodePut` | kernel/fs.c:207-221 | an inode reads back as written, field by field, and the others of its block do not change |
| `FsBlocks.SectorRoles` | include/sys/fs.h:39-46 | superblock, inodes, bitmap and data lie in this order and do not overlap |
| `FsBlocks.BitWrite` | kernel/fs.c:60-67 | writing the marked bitmap block changes that block's bit and no other of the whole volume |
| `FsBlocks.InodeWrite` | kernel/fs.c:207-221 | writing an inode changes that inode and no other of the whole volume |
| `FsOwnership.RefsDistinct` | kernel/fs.c:369-403 | no two pointers of any inodes lead to the same block |
| `FsOwnership.OwnedAddrs` | kernel/fs.c:374-388 | a free zeroed block becomes the target of a direct pointer, or an indirect block, and every allocated block still has exactly one owner |
| `FsOwnership.OwnedEntry` | kernel/fs.c:390-395 | the same for an entry of an indirect block |
| `FsOwnership.OwnedSkip` | kernel/fs.c:427-431 | giving up one more entry of the indirect block keeps the correspondence |
| `FsContent.WrittenBlock` | kernel/fs.c:508-514 | one step of `writei`: bytes of one block of one file change, and no other byte of any file |
| `FsContent.WrittenContent` | kernel/fs.c:508-519 | once the size is set, the file's bytes are the old ones with the source spliced in |
| `Fs.Volume.LogWrite` | kernel/log.c:166-194 | the map from sectors to blocks changes at one sector, and the call is recorded with the number of buffers held, at most two |
| `Fs.Volume.FindFree` | kernel/fs.c:59-75 | the first free block, or that there is none |
| `Fs.Volume.Balloc` | kernel/fs.c:51-78 | the first free block, marked and zeroed; it panics exactly if all blocks are in use |
| `Fs.Volume.Bfree` | kernel/fs.c:82-99 | clears the block's bit; it panics exactly on a free block |
| `Fs.Volume.Bmap` | kernel/fs.c:370-403 | the block of a position, allocated if need be: ownership and bitmap stay right, no byte of any file changes, the inode on disk is not touched; it fails exactly beyond MAXFILE, or when fewer blocks are free than the pointers on the way lack |
| `Fs.Volume.Iupdate` | kernel/fs.c:207-221 | disk and memory copy of the inode agree, and no file changes |
| `Fs.Volume.Writei` | kernel/fs.c:488-522 | the content is the old one with the source spliced in, every other file keeps inode, bytes and having no hole; refused exactly beyond the end or beyond the largest file; it runs out of blocks exactly when fewer are free than the range lacks; the inode on disk equals the one in memory although it is written only on growth; and a bound on what it logs |
| `Fs.Volume.Readi` | kernel/fs.c:455-483 | exactly the clipped slice of the content, and nothing changes; refused exactly beyond the end or on wrap-around |
| `Fs.Volume.Itrunc` | kernel/fs.c:411-440 | the inode loses all its blocks and its size, `bfree` never meets a free block, and no other file changes |
| `Fs.Volume.LoadInode` | kernel/fs.c:292-307 | the inode in memory is the one on disk |
| `Fs.Volume.FreeInode` | kernel/fs.c:338-342 | an inode without links gives up blocks and type, on disk as well, and no other file changes |
| `Fs.ChunkBound` | kernel/file.c:147-165 | a chunk of at most three blocks' length logs at most six sectors beside bitmap blocks, at any offset |
| `Fs.SevenLogged` | kernel/file.c:141-147 | with one bitmap block a chunk logs at most 7 distinct sectors |
| `Fs.TookOne` | kernel/fs.c:59-75 | `balloc` always takes the first free block: everything below it is in use |
| `FsSpace.ChargedTrans` | kernel/fs.c:370-403 | the blocks that consecutive steps take add up: one for every pointer on the way that led nowhere before, none twice |
| `Fs.FreeCount` | kernel/fs.c:51-78 | every data block is owned by a pointer or free, so that the two counts add up to all of them |
| `Fs.ChargedExactly` | kernel/fs.c:51-78 | an operation runs out of blocks if and only if fewer were free before it than it needs |
| `Fs.FirstTaken` | kernel/fs.c:59-75 | the blocks taken stay below a limit if and only if they are no more than were free below it |
| `Fs.AttemptedAt` | kernel/file.c:150-165 | which chunks of a `filewrite` are written and which is refused |
| `Fs.Volume.WriteChunk` | kernel/file.c:157-165 | one transaction: content spliced, others kept, the sectors it may log, the blocks it takes |
| `Fs.Volume.Filewrite` | kernel/file.c:147-178 | a prefix of the source, of known length, is spliced in at the offset, all of it unless the offset is beyond the end or the file would get too long; the transactions, each from one consistent volume to the next; it runs out of blocks exactly if fewer are free than it needs, and keeps away from the sectors from a limit on exactly if enough are free below it; if it runs out of blocks, the committed transactions and the unfinished one |
| `FsCrash.TransactionIsAtomic` | kernel/log.c:75-155 | a transaction of the file system happens entirely or not at all, for every crash and every recovery |
| `FsCrash.FilewriteSurvivesCrash` | kernel/file.c:147-178 | after a crash at any sector write of any transaction of a `filewrite`, and any crashes in recovery, the disk is a consistent file system in which the file has its old bytes with the first m of the source over them, m counting whole transactions, and no other file has changed; if the transactions kept away from the log, no block of a file lies in it |
| `FsCrash.DiskTellsFiles` | kernel/memide.c:35-64 | then the disk outside the log determines every inode and the bytes of every file |
| `FsCrash.BallocReachesLog` | kernel/fs.c:59-75 | the block `balloc` hands out lies in the log region if and only if every block below the log is in use |
| `FsCrash.NoDataBlocks` | mkfs.c:329-343 | on an image without data blocks the first block handed out is the log header |
| `FsCrash.LogHandedOut` | mkfs.c:68-95 | mkfs makes such an image, with 39 blocks: on it the first `balloc` hands out a block of the log |
| `FsCrash.PanicSurvives` | kernel/fs.c:77-77 | after a panic for want of blocks in the middle of a transaction, recovery gives the last committed content |
| `FsCrash.RoomyFilewriteRuns` | kernel/fs.c:51-78 | a `filewrite` that stays below the log, on an image with one or two bitmap blocks, runs as transactions of the log |
| `FsCrash.ChunkNeverStuck` | kernel/bio.c:84-94 | at every `log_write` of a `filewrite` transaction the log has room, and `bget` finds a buffer as long as the sectors logged and the buffers held, the writer's and others', are fewer than the buffers |
| `FsCrash.BuffersSuffice` | kernel/bio.c:84-94 | the same for any `bread`, in the transaction or outside it |
| `FsCrash.ShowsUnique` | kernel/memide.c:35-64 | a disk shows one content only: no two blocks look alike as words |
| `Mkfs.Builder.constructor` | mkfs.c:68-95 | an image of zeros with its superblock is a valid draft with no block owned |
| `Mkfs.Builder.Ialloc` | mkfs.c:316-326 | the next inode, empty and with one link; no other file changes |
| `Mkfs.Builder.Iappend` | mkfs.c:348-401 | the data stands behind what the file had, and no other file changes; it stops only if the image is full or the file would get too long |
| `Mkfs.FirstBits` | mkfs.c:335-339 | exactly the first `used` bits are set |
| `Mkfs.Builder.Balloc` | mkfs.c:329-343 | the finished image is a consistent file system: a bit is set exactly for metadata and for blocks with an owner, every inode is on disk, and no file has a hole |
| `QDivRem.TrialDigitOffByAtMostOne` | libc/quad/qdivrem.c:159-195 | the trial digit is never too small and at most one too large |
| `QDivRem.TrialDigit` | libc/quad/qdivrem.c:174-195 | the guess with its corrections is the smaller of B - 1 and the quotient of the three leading digits by two |
| `QDivRem.BorrowIsExact` | libc/quad/qdivrem.c:203-207 | one digit of multiply-and-subtract loses nothing to the 32-bit wrap |
| `QDivRem.MultiplySubtract` | libc/quad/qdivrem.c:203-210 | the digits are the difference modulo the number of digits, and the result tells whether it went below zero |
| `QDivRem.CorrectionIsExact` | libc/quad/qdivrem.c:211-228 | the borrow tells whether the trial digit was one too large, and one add-back restores the remainder |
| `QDivRem.DivideDigit` | libc/quad/qdivrem.c:159-228 | one digit of the quotient, and the remainder left in place |
| `QDivRem.LongDivide` | libc/quad/qdivrem.c:159-231 | quotient times divisor plus remainder is the dividend, and the remainder is below the divisor |
| `QDivRem.Normalize` | libc/quad/qdivrem.c:145-154 | both numbers are scaled by the same power of two, without overflow, and the leading divisor digit is at least B / 2 |
| `QDivRem.AlgorithmD` | libc/quad/qdivrem.c:139-250 | quotient and remainder of the original numbers, the remainder scaled back |
| `QDivRem.DivideByDigit` | libc/quad/qdivrem.c:105-120 | quotient and remainder by a one-digit divisor |
| `QDivRem.DivRem` | libc/quad/qdivrem.c:31-255 | for all 64-bit u and all v other than 0: exactly u / v and u % v |
| `Digits.ShlDigitIsOr` | libc/quad/qdivrem.c:262-271 | a shifted digit is the bitwise or of the two parts the code computes |
| `Digits.ShrDigitIsOr` | libc/quad/qdivrem.c:240-244 | the same for the shift back |
| `QDivRem.BorrowIsMasked` | libc/quad/qdivrem.c:203-207 | the borrow is what the code extracts with its mask |
| `QuadSigned.Div` | libc/quad/divdi3.c:8-30 | the truncated quotient, exactly unless the dividend is -2^63 and the divisor -1; the value there |
| `QuadSigned.Mod` | libc/quad/moddi3.c:9-31 | the remainder of truncated division, with the sign of the dividend, for every nonzero divisor |
| `QuadSigned.TruncatedUnique` | libc/quad/divdi3.c:8-30 | quotient and remainder of truncated division are unique |
| `QuadSigned.ThreeProducts` | libc/quad/muldi3.c:62-136 | the identity behind the three-product multiplication, for any word size |
| `QuadSigned.LMulQ` | libc/quad/muldi3.c:155-219 | the exact 64-bit product of any two 32-bit numbers, despite wrapping partial sums and hand-made carries |
| `QuadSigned.Mul` | libc/quad/muldi3.c:62-136 | the product modulo 2^64 for all signed inputs, the most negative one included |
| `Search.BSearch` | libc/search.c:3-25 | an index whose element equals the key, or -1 exactly if there is none |
| `Search.MedianOfThree` | libc/search.c:64-83 | a rearrangement that leaves sentinels for both scans |
| `Search.ScanRight` | libc/search.c:87-90 | stops inside the segment at an element not below the pivot, everything passed being at most the pivot |
| `Search.ScanLeft` | libc/search.c:92-95 | the same from the right |
| `Search.Partition` | libc/search.c:64-107 | a rearrangement of the segment, split into two smaller parts around the pivot |
| `Search.InsertionSort` | libc/search.c:119-128 | a sorted rearrangement of the segment |
| `Search.DepthBound` | libc/search.c:109-118 | since the larger part is pushed, fewer than 29 segments are pending for any count below 2^32, so 64 slots suffice |
| `Search.QSort` | libc/search.c:53-137 | for every array and every total preorder: sorted, a permutation, the stack never overflows, and it terminates |
| `Malloc.SizeArithmetic` | libc/malloc.c:27-51 | the size arithmetic is right exactly for requests up to 2^31 - 16 bytes |
| `Malloc.OversizedRequests` | libc/malloc.c:27-51 | two requests beyond it: one gets a single unit, one asks the kernel to shrink |
| `Malloc.FreeKeepsRing` | libc/malloc.c:99-113 | after any of the merges the ring is circular and in address order |
| `Malloc.FreeKeepsBlocks` | libc/malloc.c:99-113 | free blocks stay apart and no two are adjacent |
| `Malloc.FreeAddsUnits` | libc/malloc.c:99-113 | exactly the block's units move into the ring, however it merges |
| `Malloc.SearchStops` | libc/malloc.c:94-97 | the search of `free` stops at an element exactly if the block belongs right behind it |
| `Malloc.Allocator.Free` | libc/malloc.c:89-114 | the heap stays in order and gives up exactly that block; free plus live units still equal what `sbrk` gave |
| `Malloc.Allocator.Morecore` | libc/malloc.c:27-45 | memory from `sbrk` joins the ring, or nothing changes if it refuses |
| `Malloc.Allocator.Walk` | libc/malloc.c:58-72 | one walk around the ring finds a block with room exactly if there is one |
| `Malloc.Allocator.Malloc` | libc/malloc.c:47-77 | a block disjoint from all others with room for the request; NULL exactly if memory was asked for and refused; memory is asked for at most once, and only if no free block was large enough |
| `ProcTable.Table.Wakeup1` | kernel/proc.c:405-412 | exactly the sleepers on the channel become runnable |
| `ProcTable.Table.Kill` | kernel/proc.c:426-447 | the first process with that pid is marked, and woken if asleep; the result tells whether there was one |
| `ProcTable.Table.Alloc` | kernel/proc.c:40-50 | the first unused slot becomes an embryo with a new pid, or nothing changes |
| `ProcTable.Table.Exit` | kernel/proc.c:199-213 | parent woken, children handed to init, init woken if one of them is a zombie, the process a zombie |
| `ProcTable.ExitedAt` | kernel/proc.c:199-213 | what that does to every single process: whose parent becomes init, and exactly whom it wakes |
| `ProcTable.KilledAt` | kernel/proc.c:426-447 | exactly the first process with the pid is marked, and woken if it sleeps; no other changes |
| `ProcTable.Table.WaitScan` | kernel/proc.c:229-252 | the first zombie child is reaped, or nothing changes and it is known whether there are children |
| `SchedProtocol.StepInv` | kernel/proc.c:274-447 | every step of every CPU keeps the invariant on locks, states, stacks, families, embryos and pending wakeups; a timer interrupt may make a process yield wherever it holds no lock |
| `SchedProtocol.InitInv` | kernel/proc.c:81-107 | it holds at the start |
| `SchedProtocol.RunInv` | kernel/proc.c:274-447 | so in every state of every run |
| `SchedProtocol.RunningIffCurrent` | kernel/proc.c:274-333 | whenever `ptable.lock` is free, a process is RUNNING if and only if exactly one CPU has it as current |
| `SchedProtocol.CurrentUnique` | kernel/proc.c:274-306 | no two CPUs ever have the same current process, lock held or not |
| `SchedProtocol.InUseNotFreed` | kernel/proc.c:221-263 | the kernel stack a CPU runs on and the page table it uses are never freed under it |
| `SchedProtocol.NoLostWakeup` | kernel/proc.c:366-420 | with both locks free nobody sleeps on a channel whose condition holds; `begin_trans` and `commit_trans` on `log.busy` are an instance |
| `SchedProtocol.ZombieIsReaped` | kernel/proc.c:196-263 | every zombie has a live parent, and that parent does not sleep in `wait` |
| `SchedProtocol.SchedNeverPanics` | kernel/proc.c:311-333 | at every call of `sched` its CPU holds `ptable.lock` and no other lock, the state has changed, and interrupts are off |
| `SchedProtocol.LocksNeverPanic` | kernel/spinlock.c:24-124 | `acquire` never finds the lock held by its own CPU; `release` and `popcli` always find it held, with interrupts off |
| `Pipe.TestsAreExact` | kernel/pipe.c:97-131 | the two counter tests mean full and empty, whatever the 32-bit counters have wrapped to |
| `Pipe.IndexSurvivesWrap` | kernel/pipe.c:107-135 | the slot computed from a wrapped counter is that of the unwrapped one |
| `Pipe.PutAppends` | kernel/pipe.c:107-107 | storing appends one byte to the contents |
| `Pipe.TakeRemoves` | kernel/pipe.c:135-135 | fetching takes the oldest byte |
| `Pipe.Buffer.Store` | kernel/pipe.c:96-108 | as many bytes as fit are appended, in order |
| `Pipe.Buffer.Fetch` | kernel/pipe.c:130-136 | up to n of the oldest bytes are taken, in order |
| `PipeProtocol.DeliveredIsPrefix` | kernel/pipe.c:91-141 | in every run, what was delivered is a prefix of what was accepted, and the rest, at most PIPESIZE bytes, is in the pipe |
| `PipeProtocol.NoWriterSleepsInVain` | kernel/pipe.c:97-105 | a sleeping writer faces a full pipe whose read end is open |
| `PipeProtocol.EmptyReadIsEndOfFile` | kernel/pipe.c:116-141 | a read of at least one byte returns none if and only if the write end is closed and everything was delivered |
| `PipeProtocol.ReadersStep` | kernel/pipe.c:91-141 | a step leaves a reader asleep in front of data if and only if a writer gives up on a full pipe while a reader sleeps |
| `PipeProtocol.NoReaderSleepsInVain` | kernel/pipe.c:91-141 | in runs without that, no reader sleeps in vain, and readers and writers are never asleep together |
| `PipeProtocol.KilledWriterStrandsReader` | kernel/pipe.c:98-101 | a run in which a killed writer leaves a reader asleep in front of a full pipe |
| `Shell.Parser.GetTok` | apps/sh.c:302-361 | the next token and its bounds |
| `Shell.Parser.Peek` | apps/sh.c:364-375 | whether the next character is one of the given ones, with only white space skipped |
| `Shell.Parser.ParseRedirs` | apps/sh.c:434-461 | the redirections at this point, in order |
| `Shell.Parser.ParseExec` | apps/sh.c:484-523 | the simple command at this point, or the error |
| `Shell.Parser.ParseBlock` | apps/sh.c:464-481 | the block at this point with the redirections behind it, or the error |
| `Shell.Parser.ParsePipe` | apps/sh.c:420-431 | the pipeline at this point, or the error |
| `Shell.Parser.ParseLine` | apps/sh.c:401-417 | the list at this point, or the error; terminates by the input consumed |
| `Shell.Parser.Parse` | apps/sh.c:383-398 | the whole command, or the error for what is left over |
| `Shell.LineTidy` | apps/sh.c:401-523 | every word of a parsed command is a nonempty run of word characters with a separator behind it, and there are at most 9 arguments |
| `Shell.Nulterminate` | apps/sh.c:527-574 | NULs go exactly to the ends of the words |
| `Shell.NulterminateIsFaithful` | apps/sh.c:527-574 | for every input that parses, what is then read as C strings is the parsed command |
| `Shell.TreeParse` | apps/sh.c:401-523 | the parser reads back a printed command wherever it stands in the input |
| `Shell.RoundTrip` | apps/sh.c:383-523 | parsing what a fully parenthesising printer prints gives the same command |
| `Shell.RoundTripInMemory` | apps/sh.c:383-574 | and so does parsing, terminating the words in place and reading them as C strings |
| `Shell.ParsedIsValid` | apps/sh.c:383-523 | whatever parses is a printable command |
| `Shell.ParsePrintParse` | apps/sh.c:383-523 | for every input that parses, printing and parsing again gives the same command |
| `Grep.MatchHere` | apps/grep.c:95-113 | true if and only if the language of the pattern has a word starting at this point, ending the text where `$` says so |
| `Grep.MatchStar` | apps/grep.c:116-124 | true if and only if some run of the starred character is followed by a match of the rest |
| `Grep.Match` | apps/grep.c:80-92 | true if and only if some substring of the text belongs to the language of the pattern, with `^`, `$`, `.` and stars as the code reads them |
| `Grep.PlainWord` | apps/grep.c:80-124 | the language of an ordinary word is that word |
| `Vm.Machine.Kalloc` | kernel/kalloc.c:86-104 | the first page of the free list, exactly if there is one |
| `Vm.Machine.WalkAlloc` | kernel/vm.c:45-67 | the table of the page, new and zeroed if there was none; no mapping changes; it fails exactly if there is neither table nor free page, and takes one page exactly if it makes a table |
| `Vm.Machine.MapPage` | kernel/vm.c:81-89 | the page is mapped and no other changes; it panics exactly if it was mapped already |
| `Vm.Machine.MapRange` | kernel/vm.c:73-100 | all pages of the range are mapped as asked, and none outside it changes |
| `Vm.Machine.SetupKvm` | kernel/vm.c:139-160 | all kernel mappings in place and none for users; it panics only if two of them overlap |
| `Vm.Machine.CopyUvm` | kernel/vm.c:352-390 | every page of the child has the parent's bytes and flags in a frame of its own from the free list, none beyond the size is mapped, and the parent's mapping and pages are unchanged; it never succeeds if the parent lacks a page, and panics only then or if two kernel mappings overlap; it fails only with no free page left |
| `Vm.Machine.Uva2ka` | kernel/vm.c:395-409 | the frame, exactly for a present user page whose table exists |
| `Vm.Machine.CopyOut` | kernel/vm.c:415-442 | user memory with the source written over it, exactly if users may touch the whole range |
| `Vm.Machine.AllocPage` | kernel/vm.c:260-271 | whether there was a page, and whether it is mapped: exactly if there was another for a missing table; then it is zeroed and for users, and no other mapping or page changes |
| `Vm.Machine.AllocUvm` | kernel/vm.c:246-274 | all pages up to the new size are zeroed and for users, and old ones and other mappings are unchanged; exactly when it reports success, and exactly when it does so with the last page missing |
| `Vm.NeedsFrames` | kernel/vm.c:260-271 | the free pages this takes: one for every page and one for every table that is missing |
| `Vm.LastBareAt` | kernel/vm.c:260-271 | when the last page can be left out: it is the first in its table, and that table is missing |
| `Vm.GrowthLeftOut` | kernel/vm.c:269-273 | one free page and no table: success is reported and nothing is mapped |
| `Vm.Machine.ClearPteU` | kernel/vm.c:337-347 | the page is no longer for users, and no other mapping or page changes; it panics exactly if there is no table |
| `Exec.PrepareStack` | kernel/exec.c:68-77 | a zero stack page above an inaccessible one, or failure, or an image without its stack page: each exactly when |
| `Exec.StackLeftOut` | kernel/exec.c:68-77 | the stack page is left out if and only if it is the first page of a missing table and the free pages just suffice for the two pages and the guard page's table |
| `Exec.GuardStops` | kernel/exec.c:92-98 | a `copyout` that reaches the guard page succeeds only inside the stack page |
| `Exec.PushString` | kernel/exec.c:92-98 | the string stands at the new stack pointer, exactly if it fits the stack page; a string longer than the image wraps the pointer and is refused |
| `Exec.ZeroWord` | kernel/exec.c:101-109 | the NULL behind env's pointers is not copied out; it is there because the page started out zero |
| `Exec.PushEnv` | kernel/exec.c:83-109 | env's strings, pointers and NULL can be read back |
| `Exec.PushArgv` | kernel/exec.c:125-149 | the same for argv, with return address and argc in front, and env still readable |
| `Exec.BuildStack` | kernel/exec.c:83-149 | it gets through exactly if the lists are short enough and everything fits the stack page, and then decoding from the final stack pointer gives back argc, every argv string and its NULL, and every env string and its NULL |

## Findings

Properties that the code does not have everywhere, each with an input that shows it and the exact
condition under which it holds:

- `malloc` sizes (libc/malloc.c:27-51): `Malloc.OversizedRequests` gives a request of 2^32 - 1 bytes, which is
  rounded to a single unit, and one of 2^31 bytes, for which `sbrk` is asked for a negative amount.
  `Malloc.SizeArithmetic`: right if and only if the request is at most 2^31 - 16 bytes.
- Signed division (libc/quad/divdi3.c:8-30): -2^63 divided by -1 gives -2^63. `QuadSigned.Div`: the result
  is the truncated quotient if and only if the operands are not this pair.
- Sleeping readers (kernel/pipe.c:98-101): `PipeProtocol.KilledWriterStrandsReader` is a run in which a reader
  waits, a writer fills the pipe and is killed, and the reader stays asleep in front of 512 bytes.
  `PipeProtocol.ReadersStep`: a step does this if and only if a writer gives up on a full pipe while a
  reader sleeps.
- The log region and the bitmap (mkfs.c:329-343, kernel/fs.c:51-78): the bitmap does not mark the log.
  `FsCrash.LogHandedOut` makes an image of 39 blocks, on which the first block `balloc` hands out is the
  log header. `FsCrash.BallocReachesLog`: `balloc` hands out a sector of the log if and only if every block
  below the log is in use. `Fs.Volume.Filewrite`: on a volume with no block of the log in use, a `filewrite`
  gets through without logging a sector of the log if and only if at least as many blocks below the log
  are free as the range it writes lacks pointers.
- Growing a process (kernel/vm.c:260-273): `allocuvm` does not look at the result of `mappages`.
  `Vm.GrowthLeftOut` has one free page and no page table: success is reported and the page is not mapped.
  `Vm.Machine.AllocUvm`: a success is reported with a page missing, always the last one, if and only if that
  page is the first of a page table there is not and the free pages are one fewer than the pages and the
  missing tables together. `Exec.PrepareStack` and `Exec.StackLeftOut` say when this leaves `execve` without
  its stack page. A later `fork` of a process that lacks a page cannot succeed (`Vm.Machine.CopyUvm`).

## Left out

- Hardware, boot code and drivers: `iderw` is an atomic sector read or write, as in kernel/memide.c.
- LogTrace.CrashAtomicity: that logged sectors lie outside the log region is a hypothesis here; `Fs.Volume.Filewrite` gives the exact condition for it.
- FsCrash.FilewriteSurvivesCrash: no other transaction comes between the chunks of the `filewrite`.
- FsCrash.RoomyFilewriteRuns: for images with one or two bitmap blocks (mkfs makes one); whether a chunk can overflow the log on larger images is not decided.
- FsCrash.ChunkNeverStuck: how many buffers others hold at that moment is a parameter.
- BufferCache.Cache.Bget: sleeping on a busy buffer ends the call with the news that it sleeps; the wake-up and retry are not part of this model.
- LogDriver.Log.BeginTrans: the sleep on a busy log ends the call; that sleepers are woken is `SchedProtocol.NoLostWakeup`.
- The cache and the log see a block as 128 words, the file system as 512 bytes; `FsCrash` relates the two.
- Fs.Volume.Readi: device inodes (T_DEV) are not part of this model.
- Fs.Volume.Writei: nor are they here.
- `iget`, `ialloc`, `idup`, the reference counts of the inode cache and the locking half of `ilock` and `iunlock`: a cached, locked inode is given.
- Directories, path names, link counts, `sysfile.c`, and the directory walk and size fix-up of mkfs.c.
- Mkfs.Builder.Ialloc: while inodes are left; the code does not test this.
- Mkfs.Builder.Balloc: for images whose used blocks fit one bitmap block, as the code demands with an assertion.
- The superblock's contents: it is any block, and its fields are given.
- Search.QSort: elements are swapped as wholes, not byte by byte.
- Malloc.Allocator.Malloc: for the requests whose size arithmetic is right; `calloc` and `realloc` are not part of this model.
- SchedProtocol.StepInv: code under one lock is one step; locks other than `ptable.lock` are of one kind, held one at a time; wake-ups from interrupt handlers come on CPUs without a process; pids do not wrap.
- SchedProtocol.RunInv: the same.
- SchedProtocol.NoLostWakeup: a safety property; that a runnable process is ever chosen is not claimed.
- PipeProtocol.DeliveredIsPrefix: freeing the pipe, and the file table, are not part of this model; whether a process is killed is chosen step by step.
- `runcmd` and the rest of the shell, and the line handling of `grep`.
- Vm.Machine.CopyUvm: the clean-up after running out of memory (`freevm`) is not part of this model, nor are `loaduvm` and `inituvm`.
- Vm.Machine.AllocUvm: nor is the clean-up with `deallocuvm`.
- Vm.Machine.MapRange: for page-aligned ranges of the kernel's half, as in `setupkvm`; single user pages are `Vm.Machine.MapPage`.
- Vm.Machine.CopyOut: for ranges inside the image or starting in the kernel's half.
- Vm.Machine.Uva2ka: without a page table the code takes what stands at address 0 for the entry; the model stops there.
- Exec.PushEnv: for at most 64 env strings, which is what `ustack` has room for; the code's own test looks at a counter of the ELF loop (kernel/exec.c:88).
- Exec.BuildStack: for strings that lie in user memory; where a string longer than the image wraps the stack pointer to a kernel page without a table, the model stops. Loading the ELF file and replacing the old image are not part of this model.
- `strto*`, `ctype`, floating-point conversions, shift and bitwise helpers, string functions, console, traps, system call dispatch and the small programs: easy single-function facts or thin wrappers.
