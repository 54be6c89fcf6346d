/** The file system on the log: what a crash at any moment of a filewrite leaves in the files. */
module FsCrash {
  import opened Param
  import opened Words
  import opened FsBlocks
  import opened FsOwnership
  import opened FsContent
  import opened Fs
  import Mkfs
  import Disk
  import BufferCache
  import LogDriver
  import L = LogTrace

  // ---- the disk of the log, seen as the blocks of the file system ----

  function Packed(b: Block): (r: Disk.Block) {
    seq(Disk.WORDS, j requires 0 <= j < Disk.WORDS => Word(b, j))
  }

  lemma {:induction false} JoinSplits(w: U32, b0: Byte, b1: Byte, b2: Byte, b3: Byte)
    requires w == Join(b0, b1, b2, b3)
    ensures ByteOf(w, 0) == b0 && ByteOf(w, 1) == b1 && ByteOf(w, 2) == b2 && ByteOf(w, 3) == b3
  {
    assert w / 0x100 == b1 + 0x100 * b2 + 0x1_0000 * b3;
    assert w / 0x1_0000 == b2 + 0x100 * b3;
  }

  lemma {:induction false} ByteOfWord(b: Block, k: nat)
    requires k < BSIZE
    ensures b[k] == ByteOf(Word(b, k / 4), k % 4)
  {
    var j := k / 4;
    JoinSplits(Word(b, j), b[4 * j], b[4 * j + 1], b[4 * j + 2], b[4 * j + 3]);
  }

  /** No two blocks look alike as words. */
  lemma {:induction false} PackedInjective(a: Block, b: Block)
    requires Packed(a) == Packed(b)
    ensures a == b
  {
    forall k | 0 <= k < BSIZE
      ensures a[k] == b[k]
    {
      ByteOfWord(a, k);
      ByteOfWord(b, k);
      assert Packed(a)[k / 4] == Word(a, k / 4) && Packed(b)[k / 4] == Word(b, k / 4);
    }
  }

  /** Outside the log region the disk holds these blocks. */
  ghost predicate Shows(l: L.Layout, disk: Disk.Sectors, blocks: seq<Block>) {
    |disk| == |blocks| && forall s :: 0 <= s < |disk| && !l.Contains(s) ==> disk[s] == Packed(blocks[s])
  }

  /** A disk shows one content only. */
  lemma {:induction false} ShowsUnique(l: L.Layout, disk: Disk.Sectors, b: seq<Block>, c: seq<Block>, s: nat)
    requires Shows(l, disk, b) && Shows(l, disk, c) && s < |disk| && !l.Contains(s)
    ensures b[s] == c[s]
  {
    PackedInjective(b[s], c[s]);
  }

  // ---- a transaction of the file system is one of the log ----

  function Entries(calls: seq<LogCall>): (r: seq<L.Entry>)
    ensures |r| == |calls|
  {
    seq(|calls|, i requires 0 <= i < |calls| => L.Entry(calls[i].sector, Packed(calls[i].data)))
  }

  lemma {:induction false} EntriesFront(calls: seq<LogCall>)
    requires calls != []
    ensures var n := |calls| - 1; Entries(calls)[..n] == Entries(calls[..n])
    ensures var n := |calls| - 1; Entries(calls)[n] == L.Entry(calls[n].sector, Packed(calls[n].data))
  {
  }

  /** The log lists exactly the sectors named, each once. */
  lemma {:induction false} LoggedIsNamed(calls: seq<LogCall>)
    ensures (set s | s in L.Logged(Entries(calls))) == Named(calls)
    ensures |L.Logged(Entries(calls))| == |Named(calls)|
    decreases |calls|
  {
    if calls != [] {
      hide Packed, Entries, Named;
      var n := |calls| - 1;
      var c := calls[n];
      EntriesFront(calls);
      LoggedIsNamed(calls[..n]);
      NamedFront(calls);
      var r := L.Logged(Entries(calls[..n]));
      assert L.Logged(Entries(calls)) == if c.sector in r then r else r + [c.sector];
    }
  }

  lemma {:induction false} NamedFront(calls: seq<LogCall>)
    requires calls != []
    ensures var n := |calls| - 1; Named(calls) == Named(calls[..n]) + {calls[n].sector}
  {
    var n := |calls| - 1;
    assert calls == calls[..n] + [calls[n]];
    assert calls[n] in calls && forall x :: x in calls[..n] ==> x in calls;
  }

  /** What the log will install over the disk is what the calls make of the blocks. */
  lemma {:induction false} OverlayIsReplay(disk: Disk.Sectors, blocks: seq<Block>, calls: seq<LogCall>, s: nat)
    requires |disk| == |blocks| && s < |disk| && disk[s] == Packed(blocks[s])
    ensures L.Overlay(disk, L.Pending(Entries(calls)))[s] == Packed(Replay(blocks, calls)[s])
    decreases |calls|
  {
    if calls != [] {
      var n := |calls| - 1;
      EntriesFront(calls);
      OverlayIsReplay(disk, blocks, calls[..n], s);
    }
  }

  ghost predicate AllHome(l: L.Layout, n: nat, calls: seq<LogCall>) {
    forall c :: c in calls ==> c.sector < n && !l.Contains(c.sector)
  }

  /** The log takes a transaction that names at most 8 sectors: at each call it has room. */
  lemma {:induction false} LogHasRoom(l: L.Layout, disk: Disk.Sectors, calls: seq<LogCall>, k: nat)
    requires l.size == LOGSIZE && |Named(calls)| <= 8 && AllHome(l, |disk|, calls) && k <= |calls|
    ensures L.Acceptable(l, disk, Entries(calls)) && |L.Logged(Entries(calls)[..k])| <= 8 < l.Capacity()
  {
    LoggedIsNamed(calls);
    L.LogWritesPrefix(l, Entries(calls), k);
    hide Packed, L.Logged;
    forall e | e in Entries(calls)
      ensures L.Home(l, disk, e.sector)
    {
      var i :| 0 <= i < |calls| && e == Entries(calls)[i];
      assert calls[i] in calls;
    }
  }

  /** A machine that shows `blocks` and has an empty log. */
  ghost predicate Quiet(l: L.Layout, disk: Disk.Sectors, blocks: seq<Block>) {
    L.Ready(l, disk) && disk[l.start][0] == 0 && Shows(l, disk, blocks)
  }

  /** The sector writes of one transaction. */
  ghost function Writes(l: L.Layout, disk: Disk.Sectors, calls: seq<LogCall>): (r: seq<Disk.Write>)
    requires l.size == LOGSIZE && l.Fits(disk) && |Named(calls)| <= 8 && AllHome(l, |disk|, calls)
    ensures |r| >= |calls|
  {
    LogHasRoom(l, disk, calls, 0);
    L.TransWrites(l, disk, Entries(calls))
  }

  lemma {:induction false} OverlayShows(l: L.Layout, disk: Disk.Sectors, blocks: seq<Block>, calls: seq<LogCall>)
    requires Shows(l, disk, blocks)
    ensures Shows(l, L.Overlay(disk, L.Pending(Entries(calls))), Replay(blocks, calls))
  {
    hide Packed, Entries, L.Overlay, L.Pending, Replay;
    forall s | 0 <= s < |disk| && !l.Contains(s)
      ensures L.Overlay(disk, L.Pending(Entries(calls)))[s] == Packed(Replay(blocks, calls)[s])
    {
      OverlayIsReplay(disk, blocks, calls, s);
    }
  }

  /** Undisturbed, the transaction takes the disk from one content to the next. */
  lemma {:induction false} Committed(l: L.Layout, disk: Disk.Sectors, blocks: seq<Block>, calls: seq<LogCall>)
    requires l.size == LOGSIZE && Quiet(l, disk, blocks) && |Named(calls)| <= 8 && AllHome(l, |disk|, calls)
    ensures Quiet(l, Disk.Apply(disk, Writes(l, disk, calls)), Replay(blocks, calls))
  {
    LogHasRoom(l, disk, calls, 0);
    OverlayShows(l, disk, blocks, calls);
    hide Packed, Entries, L.Overlay, L.Pending, L.TransWrites, Replay, Disk.Apply, Named;
    L.CommitOutcome(l, disk, Entries(calls));
  }

  /** What is on the disk after a crash at write k of the transaction, crashes of recovery after the
      numbers of writes in js, and a recovery that completes. */
  ghost function Rebooted(l: L.Layout, disk: Disk.Sectors, calls: seq<LogCall>, k: nat, js: seq<nat>): Disk.Sectors
    requires l.size == LOGSIZE && L.Ready(l, disk) && disk[l.start][0] == 0 && |Named(calls)| <= 8
             && AllHome(l, |disk|, calls)
    requires k <= |Writes(l, disk, calls)|
  {
    LogHasRoom(l, disk, calls, 0);
    L.CrashAtomicity(l, disk, Entries(calls), k, js);
    L.Recovered(l, L.AfterCrashes(l, Disk.Apply(disk, Writes(l, disk, calls)[..k]), js))
  }

  /** A transaction of the file system happens entirely or not at all. */
  lemma {:induction false} TransactionIsAtomic(l: L.Layout, disk: Disk.Sectors, blocks: seq<Block>, calls: seq<LogCall>,
                                               k: nat, js: seq<nat>)
    requires l.size == LOGSIZE && Quiet(l, disk, blocks) && |Named(calls)| <= 8 && AllHome(l, |disk|, calls)
    requires k <= |Writes(l, disk, calls)|
    ensures Shows(l, Rebooted(l, disk, calls, k, js), if k <= |calls| then blocks else Replay(blocks, calls))
  {
    LogHasRoom(l, disk, calls, 0);
    OverlayShows(l, disk, blocks, calls);
    hide Packed, Entries, L.Overlay, L.Pending, L.TransWrites, L.AfterCrashes, L.Recovered, Replay, Disk.Apply, Named;
    L.CrashAtomicity(l, disk, Entries(calls), k, js);
  }

  // ---- a whole filewrite ----

  ghost predicate Runs(l: L.Layout, n: nat, chunks: seq<Chunk>) {
    l.size == LOGSIZE && forall j :: 0 <= j < |chunks| ==>
      |Named(chunks[j].calls)| <= 8 && AllHome(l, n, chunks[j].calls)
  }

  /** Each transaction starts where the one before it ended. */
  ghost predicate Linked(b0: seq<Block>, chunks: seq<Chunk>) {
    forall j :: 0 <= j < |chunks| ==> chunks[j].start == After(b0, chunks[..j])
  }

  lemma {:induction false} LinkedFront(b0: seq<Block>, chunks: seq<Chunk>, n: nat)
    requires Linked(b0, chunks) && n <= |chunks|
    ensures Linked(b0, chunks[..n])
  {
    hide After;
    forall j | 0 <= j < n
      ensures chunks[..n][j].start == After(b0, chunks[..n][..j])
    {
      assert chunks[..n][..j] == chunks[..j];
    }
  }

  lemma {:induction false} ChunkedLinked(sb: Super, b0: seq<Block>, T0: Inodes, i: nat, off: nat, addr: seq<Byte>,
                                         chunks: seq<Chunk>)
    requires Chunked(sb, b0, T0, i, off, addr, chunks)
    ensures Linked(b0, chunks)
  {
    hide ChunkOk, After;
  }

  lemma {:induction false} LastChunk(l: L.Layout, n: nat, b0: seq<Block>, chunks: seq<Chunk>)
    requires Runs(l, n, chunks) && Linked(b0, chunks) && chunks != []
    ensures var m := |chunks| - 1;
            && Runs(l, n, chunks[..m]) && Linked(b0, chunks[..m]) && chunks[m].start == After(b0, chunks[..m])
            && |Named(chunks[m].calls)| <= 8 && AllHome(l, n, chunks[m].calls)
            && After(b0, chunks) == Replay(chunks[m].start, chunks[m].calls)
  {
    hide Named, AllHome, Replay;
    LinkedFront(b0, chunks, |chunks| - 1);
  }

  /** The disk after the given transactions have committed shows what they made of the blocks. */
  ghost function DiskAfter(l: L.Layout, disk: Disk.Sectors, b0: seq<Block>, chunks: seq<Chunk>): (r: Disk.Sectors)
    requires Quiet(l, disk, b0) && Runs(l, |disk|, chunks) && Linked(b0, chunks)
    ensures |r| == |disk| && Quiet(l, r, After(b0, chunks))
    decreases |chunks|
  {
    hide Shows, Named, Writes, Replay, Disk.Apply, AllHome, L.IsHeader, Linked, Runs, After;
    if chunks == [] then
      EmptyAfter(b0);
      disk
    else
      LastChunk(l, |disk|, b0, chunks);
      var n := |chunks| - 1;
      var d := DiskAfter(l, disk, b0, chunks[..n]);
      Committed(l, d, chunks[n].start, chunks[n].calls);
      Disk.Apply(d, Writes(l, d, chunks[n].calls))
  }

  lemma {:induction false} EmptyAfter(b0: seq<Block>)
    ensures After(b0, []) == b0
  {
  }

  ghost predicate Run(l: L.Layout, disk: Disk.Sectors, b0: seq<Block>, chunks: seq<Chunk>) {
    Quiet(l, disk, b0) && Runs(l, |disk|, chunks) && Linked(b0, chunks)
  }

  /** The disk on which transaction j of the run starts. */
  ghost function DiskBefore(l: L.Layout, disk: Disk.Sectors, b0: seq<Block>, chunks: seq<Chunk>, j: nat)
    : (d: Disk.Sectors)
    requires Run(l, disk, b0, chunks) && j < |chunks|
    ensures Quiet(l, d, chunks[j].start) && l.size == LOGSIZE
    ensures |Named(chunks[j].calls)| <= 8 && AllHome(l, |d|, chunks[j].calls)
  {
    hide Shows, Named, AllHome, L.IsHeader, After, DiskAfter;
    LinkedFront(b0, chunks, j);
    DiskAfter(l, disk, b0, chunks[..j])
  }

  ghost predicate CrashPoint(l: L.Layout, disk: Disk.Sectors, b0: seq<Block>, chunks: seq<Chunk>, j: nat, k: nat) {
    && Run(l, disk, b0, chunks) && j < |chunks|
    && k <= |Writes(l, DiskBefore(l, disk, b0, chunks, j), chunks[j].calls)|
  }

  /** The disk after a crash at write k of transaction j, and recovery as in Rebooted. */
  ghost function CrashedAt(l: L.Layout, disk: Disk.Sectors, b0: seq<Block>, chunks: seq<Chunk>, j: nat, k: nat,
                           js: seq<nat>): (d: Disk.Sectors)
    requires CrashPoint(l, disk, b0, chunks, j, k)
    ensures Shows(l, d, if k <= |chunks[j].calls| then chunks[j].start else Replay(chunks[j].start, chunks[j].calls))
  {
    hide Shows, Named, AllHome, L.IsHeader, Run, Replay, Writes, Rebooted, DiskBefore;
    var d := DiskBefore(l, disk, b0, chunks, j);
    TransactionIsAtomic(l, d, chunks[j].start, chunks[j].calls, k, js);
    Rebooted(l, d, chunks[j].calls, k, js)
  }

  /** A crash at any sector write of any transaction of a filewrite, then any number of crashes in
      recovery, then a recovery that completes: the disk is a consistent file system in which the file
      has its old bytes with the first m of the source written over them, where m counts whole
      transactions; no other file has changed. If the transactions kept away from the log (Filewrite says
      when), no block of a file lies in it, and the disk alone tells the files (DiskTellsFiles). */
  lemma {:induction false} FilewriteSurvivesCrash(l: L.Layout, disk: Disk.Sectors, sb: Super, b0: seq<Block>,
                                                  T0: Inodes, i: nat, off: nat, addr: seq<Byte>, chunks: seq<Chunk>,
                                                  j: nat, k: nat, js: seq<nat>)
    returns (now: seq<Block>, m: nat)
    requires Chunked(sb, b0, T0, i, off, addr, chunks) && CrashPoint(l, disk, b0, chunks, j, k)
    ensures m == (if k <= |chunks[j].calls| then chunks[j].before else chunks[j].after) <= |addr|
    ensures Shows(l, CrashedAt(l, disk, b0, chunks, j, k, js), now) && UpTo(sb, b0, T0, i, off, addr[..m], now)
    ensures ChunksClear(sb, chunks, l.start) ==> Clear(sb, now, l.start)
  {
    assert ChunkOk(sb, b0, T0, i, off, addr, chunks[j]);
    hide UpTo, Replay, Chunked, Shows, CrashedAt, CrashPoint, Clear;
    now := if k <= |chunks[j].calls| then chunks[j].start else Replay(chunks[j].start, chunks[j].calls);
    m := if k <= |chunks[j].calls| then chunks[j].before else chunks[j].after;
  }

  /** With no file block in the log, the disk determines the inodes and the bytes of every file. */
  lemma {:induction false} DiskTellsFiles(l: L.Layout, disk: Disk.Sectors, sb: Super, a: seq<Block>, b: seq<Block>,
                                          own: map<nat, Owner>, f: nat)
    requires Shows(l, disk, a) && Shows(l, disk, b) && SuperOk(sb, a) && SuperOk(sb, b) && f < sb.ninodes
    requires Consistent(sb, a, OnDisk(sb, a), own) && Clear(sb, a, l.start)
    ensures OnDisk(sb, b) == OnDisk(sb, a)
    ensures Content(b, OnDisk(sb, b), f) == Content(a, OnDisk(sb, a), f)
  {
    hide Shows, Consistent, Content, Clear, Ino;
    SameLength(l, disk, a, b);
    forall s: nat | s < l.start && s < |a|
      ensures b[s] == a[s]
    {
      ShowsUnique(l, disk, a, b, s);
    }
    SameInodes(sb, a, b, l.start);
    OwnBelow(sb, a, OnDisk(sb, a), own, l.start);
    SameFile(sb, a, b, OnDisk(sb, a), own, l.start, f);
  }

  lemma {:induction false} SameLength(l: L.Layout, disk: Disk.Sectors, a: seq<Block>, b: seq<Block>)
    requires Shows(l, disk, a) && Shows(l, disk, b)
    ensures |a| == |b| == |disk|
  {
  }

  lemma {:induction false} SameInodes(sb: Super, a: seq<Block>, b: seq<Block>, lim: nat)
    requires SuperOk(sb, a) && SuperOk(sb, b) && Clear(sb, a, lim) && |b| == |a|
    requires forall s: nat :: s < lim && s < |a| ==> b[s] == a[s]
    ensures OnDisk(sb, b) == OnDisk(sb, a)
  {
    hide DinodeAt;
    forall i | 0 <= i < sb.ninodes
      ensures Ino(sb, b, i) == Ino(sb, a, i)
    {
      IInRange(sb, i);
    }
  }

  lemma {:induction false} SameFile(sb: Super, a: seq<Block>, b: seq<Block>, T: Inodes, own: map<nat, Owner>, lim: nat,
                                    f: nat)
    requires Consistent(sb, a, T, own) && AllOk(T) && f < |T| && SetBelow(own.Keys, lim) && |b| == |a|
    requires forall s: nat :: s < lim && s < |a| ==> b[s] == a[s]
    ensures Content(b, T, f) == Content(a, T, f)
  {
    hide Owned, Bits, Word;
    forall k: nat | k < T[f].size
      ensures ByteAt(b, T, f, k) == ByteAt(a, T, f, k)
    {
      if k / BSIZE < MAXFILE {
        MappedOwned(a, T, own, DataStart(sb), sb.size, f, k / BSIZE);
        IndirectOwned(a, T, 0, 0, own, DataStart(sb), sb.size, f);
        RefSame(a, b, T[f], SlotOf(k / BSIZE), 0);
        assert forall x :: x in own ==> x in own.Keys;
      }
    }
  }

  // ---- when the logged sectors lie outside the log ----

  /** A filewrite that stays below the log runs as transactions of the log, on an image with one or two
      bitmap blocks. */
  lemma {:induction false} RoomyFilewriteRuns(l: L.Layout, disk: Disk.Sectors, sb: Super, b0: seq<Block>, T0: Inodes,
                                              i: nat, off: nat, addr: seq<Byte>, chunks: seq<Chunk>)
    requires Quiet(l, disk, b0) && l.size == LOGSIZE && Chunked(sb, b0, T0, i, off, addr, chunks)
             && ChunksBelow(chunks, l.start) && MostLogged(sb) <= 8
    ensures Run(l, disk, b0, chunks)
  {
    hide UpTo, Named, Replay, After, HoldFew, L.IsHeader, Shows, MostLogged;
    ChunkedLinked(sb, b0, T0, i, off, addr, chunks);
    hide Linked;
    forall j | 0 <= j < |chunks|
      ensures |Named(chunks[j].calls)| <= 8 && AllHome(l, |disk|, chunks[j].calls)
    {
      assert ChunkOk(sb, b0, T0, i, off, addr, chunks[j]) && AllBelow(chunks[j].calls, l.start);
    }
  }

  /** balloc's block, the first free one, lies in the log region exactly if every block below the log is
      in use: the bitmap does not mark the log. */
  lemma {:induction false} BallocReachesLog(l: L.Layout, sb: Super, blocks: seq<Block>, b: nat)
    requires SuperOk(sb, blocks) && l.start + l.size == sb.size && b < sb.size && !InUse(sb, blocks, b)
    requires forall c :: 0 <= c < b ==> InUse(sb, blocks, c)
    ensures l.Contains(b) <==> forall c :: 0 <= c < l.start ==> InUse(sb, blocks, c)
  {
    hide InUse;
  }

  /** Such an image: no data blocks at all. The first block that balloc hands out is the log header. */
  lemma {:induction false} NoDataBlocks(l: L.Layout, sb: Super, blocks: seq<Block>, T: Inodes, b: nat)
    requires Consistent(sb, blocks, T, map[]) && l.start == DataStart(sb) && l.start + l.size == sb.size && l.size > 0
    requires b < sb.size && !InUse(sb, blocks, b) && forall c :: 0 <= c < b ==> InUse(sb, blocks, c)
    ensures b == l.start
  {
    hide InUse, Owned;
    assert !InUse(sb, blocks, l.start);
  }

  /** mkfs makes such an image: 39 blocks, of which 29 are metadata and 10 the log. */
  method LogHandedOut(super: Block) returns (l: L.Layout, b: nat)
    ensures l == L.Layout(29, LOGSIZE) && l.Contains(b)
  {
    l := L.Layout(29, LOGSIZE);
    var sb := Super(39, 200);
    var img := new Mkfs.Builder(sb, super);
    img.Balloc();
    var vol := new Volume(sb, img.blocks, img.table, img.own);
    FreeIs(sb, vol.blocks, vol.table, vol.own, sb.size);
    assert 29 in FreeBelow(sb, vol.blocks, sb.size);
    var stop;
    stop, b := vol.Balloc(0);
    NoDataBlocks(l, sb, img.blocks, img.table, b);
  }

  // ---- a filewrite that runs out of blocks ----

  /** The kernel panics in the middle of a transaction, having made k of its log writes. What is recovered
      is the last committed content, which Filewrite describes. */
  lemma {:induction false} PanicSurvives(l: L.Layout, disk: Disk.Sectors, b0: seq<Block>, chunks: seq<Chunk>,
                                         calls: seq<LogCall>, k: nat, js: seq<nat>)
    returns (d: Disk.Sectors)
    requires Run(l, disk, b0, chunks) && |Named(calls)| <= 8 && AllHome(l, |disk|, calls) && k <= |calls|
    ensures L.Ready(l, d) && d[l.start][0] == 0 && d == DiskAfter(l, disk, b0, chunks) && |d| == |disk|
    ensures k <= |Writes(l, d, calls)| && Shows(l, Rebooted(l, d, calls, k, js), After(b0, chunks))
  {
    hide Named, Replay, After, Shows, Rebooted, Linked, AllHome;
    d := DiskAfter(l, disk, b0, chunks);
    TransactionIsAtomic(l, d, After(b0, chunks), calls, k, js);
  }

  // ---- buffers ----

  /** At no point of a transaction are all buffers held or pinned, as long as the buffers held, by the
      writer and by others together, and the sectors logged are fewer than the buffers: bread, in the
      transaction or outside it, finds one to recycle. */
  lemma {:induction false} BuffersSuffice(bufs: seq<BufferCache.Buf>, disk: Disk.Sectors, calls: seq<LogCall>, k: nat)
    requires k <= |calls|
    requires BufferCache.Coherent(bufs, disk, L.Pending(Entries(calls[..k]))) && BufferCache.AtMostOne(bufs)
    requires |Named(calls)| + |LogDriver.Busy(bufs)| < BufferCache.NBUF
    ensures LogDriver.Spare(bufs)
  {
    hide BufferCache.Coherent, BufferCache.AtMostOne, LogDriver.Busy, LogDriver.Spare, Entries, L.Pending, L.Logged;
    LoggedIsNamed(calls[..k]);
    NamedFewer(calls, k);
    LogDriver.SomeSpare(bufs, disk, L.Pending(Entries(calls[..k])), L.Logged(Entries(calls[..k])));
  }

  lemma {:induction false} NamedFewer(calls: seq<LogCall>, k: nat)
    requires k <= |calls|
    ensures |Named(calls[..k])| <= |Named(calls)|
  {
    assert forall c :: c in calls[..k] ==> c in calls;
    AtMost(Named(calls[..k]), Named(calls));
  }

  /** So a call of log_write in a transaction of filewrite finds the log sectors in reach and the log not
      full, while others hold so few buffers that with the writer's own and the sectors logged so far
      not all are taken. The writer holds at most two; on an image with one bitmap block it logs at most
      seven, so that at worst none is left for others. */
  lemma {:induction false} ChunkNeverStuck(sb: Super, b0: seq<Block>, T0: Inodes, i: nat, off: nat, addr: seq<Byte>,
                                           c: Chunk, k: nat, bufs: seq<BufferCache.Buf>, disk: Disk.Sectors,
                                           l: L.Layout, others: nat)
    requires AllOk(T0) && i < |T0| && ChunkOk(sb, b0, T0, i, off, addr, c) && k < |c.calls| && l.size == LOGSIZE
    requires BufferCache.Coherent(bufs, disk, L.Pending(Entries(c.calls[..k]))) && BufferCache.AtMostOne(bufs)
    requires |LogDriver.Busy(bufs)| <= c.calls[k].held + others
    requires |L.Logged(Entries(c.calls[..k]))| + c.calls[k].held + others < BufferCache.NBUF
    requires forall s :: l.Contains(s) ==> LogDriver.NotHeld(bufs, s)
    ensures c.calls[k].held <= 2 && |L.Logged(Entries(c.calls[..k]))| <= MostLogged(sb)
    ensures sb.size <= BPB ==> |L.Logged(Entries(c.calls[..k]))| <= 7 < l.Capacity()
    ensures forall s :: l.Contains(s) ==> LogDriver.Available(bufs, s)
  {
    hide BufferCache.Coherent, BufferCache.AtMostOne, LogDriver.Busy, LogDriver.Spare, LogDriver.NotHeld,
         LogDriver.Available, Entries, L.Pending, L.Logged, UpTo, Named, Replay, MostLogged;
    assert c.calls[k] in c.calls;
    if sb.size <= BPB {
      SevenLogged(sb);
    }
    LoggedIsNamed(c.calls[..k]);
    NamedFewer(c.calls, k);
    LogDriver.SomeSpare(bufs, disk, L.Pending(Entries(c.calls[..k])), L.Logged(Entries(c.calls[..k])));
    forall s | l.Contains(s)
      ensures LogDriver.Available(bufs, s)
    {
      LogDriver.SpareAvailable(bufs, s);
    }
  }
}
