/** Blocks, inodes and file contents: kernel/fs.c on the map from sector to block that the buffer
    cache and the log maintain. bread reads that map; log_write writes it. */
module Fs {
  import opened Param
  import opened Words
  import opened FsBlocks
  import opened FsOwnership
  import opened FsContent
  import opened FsSpace

  const T_DEV := 3

  /** Why the kernel stops. */
  datatype Panic = Fine | OutOfBlocks | OutOfRange | FreeingFreeBlock

  /** The bitmap marks exactly the metadata blocks and the owned blocks. */
  ghost predicate Bits(sb: Super, blocks: seq<Block>, own: map<nat, Owner>)
    requires SuperOk(sb, blocks)
  {
    forall b :: 0 <= b < sb.size ==> (InUse(sb, blocks, b) <==> b < DataStart(sb) || b in own)
  }

  ghost predicate Consistent(sb: Super, blocks: seq<Block>, T: Inodes, own: map<nat, Owner>) {
    && SuperOk(sb, blocks) && |T| == sb.ninodes
    && Owned(blocks, T, 0, 0, own, DataStart(sb), sb.size) && Bits(sb, blocks, own)
  }

  /** Inode by inode, the disk holds what the kernel has in memory. */
  ghost predicate Synced(sb: Super, blocks: seq<Block>, T: Inodes, i: nat)
    requires SuperOk(sb, blocks) && |T| == sb.ninodes && i < |T|
  {
    T[i] == Ino(sb, blocks, i)
  }

  ghost predicate SyncedBut(sb: Super, blocks: seq<Block>, T: Inodes, i: nat)
    requires SuperOk(sb, blocks) && |T| == sb.ninodes
  {
    forall j :: 0 <= j < |T| && j != i ==> Synced(sb, blocks, T, j)
  }

  lemma {:induction false} BitsKept(sb: Super, blocks: seq<Block>, after: seq<Block>, own: map<nat, Owner>)
    requires SuperOk(sb, blocks) && SuperOk(sb, after) && Bits(sb, blocks, own)
    requires forall b :: 0 <= b < sb.size ==> InUse(sb, after, b) == InUse(sb, blocks, b)
    ensures Bits(sb, after, own)
  {
    hide InUse;
    forall b | 0 <= b < sb.size
      ensures InUse(sb, after, b) <==> b < DataStart(sb) || b in own
    {
      assert InUse(sb, after, b) == InUse(sb, blocks, b);
    }
  }

  /** Files other than i keep their inode, their bytes and their having no hole. */
  ghost predicate FilesKept(b0: seq<Block>, T0: Inodes, b1: seq<Block>, T1: Inodes, i: nat)
  {
    && |T1| == |T0| && AllOk(T1) && AllOk(T0)
    && forall f :: 0 <= f < |T1| && f != i && NoHole(b0, T0, f) ==> FileKept(b0, T0, b1, T1, f)
  }

  ghost predicate FileKept(b0: seq<Block>, T0: Inodes, b1: seq<Block>, T1: Inodes, f: nat)
    requires |T1| == |T0| && AllOk(T1) && AllOk(T0) && f < |T1|
  {
    T1[f] == T0[f] && NoHole(b1, T1, f) && Content(b1, T1, f) == Content(b0, T0, f)
  }

  lemma {:induction false} FilesSelf(b: seq<Block>, T: Inodes, i: nat)
    requires AllOk(T)
    ensures FilesKept(b, T, b, T, i)
  {
  }

  lemma {:induction false} FilesTrans(b0: seq<Block>, T0: Inodes, b1: seq<Block>, T1: Inodes, b2: seq<Block>,
                                      T2: Inodes, i: nat)
    requires FilesKept(b0, T0, b1, T1, i) && FilesKept(b1, T1, b2, T2, i)
    ensures FilesKept(b0, T0, b2, T2, i)
  {
    hide NoHole, Content;
    forall f | 0 <= f < |T2| && f != i && NoHole(b0, T0, f)
      ensures FileKept(b0, T0, b2, T2, f)
    {
      assert FileKept(b0, T0, b1, T1, f) && FileKept(b1, T1, b2, T2, f);
    }
  }

  /** balloc's two sector writes. */
  function Allocated(sb: Super, blocks: seq<Block>, b: nat): (r: seq<Block>)
    requires SuperOk(sb, blocks) && b < sb.size
    ensures |r| == |blocks|
  {
    blocks[BSector(sb, blocks, b) := MarkedBlock(sb, blocks, b, true)][b := ZeroBlock()]
  }

  function Released(sb: Super, blocks: seq<Block>, b: nat): seq<Block>
    requires SuperOk(sb, blocks) && b < sb.size
  {
    blocks[BSector(sb, blocks, b) := MarkedBlock(sb, blocks, b, false)]
  }

  lemma {:induction false} AllocFacts(sb: Super, blocks: seq<Block>, T: Inodes, own: map<nat, Owner>, b: nat)
    requires Consistent(sb, blocks, T, own) && b < sb.size && !InUse(sb, blocks, b)
    ensures var after := Allocated(sb, blocks, b);
            && DataStart(sb) <= b && b !in own && SuperOk(sb, after) && Blank(after[b]) && after[b] == ZeroBlock()
            && AgreeBut(blocks, after, own, 0) && 0 !in own
            && (forall c :: 0 <= c < sb.size ==> (InUse(sb, after, c) <==> c == b || InUse(sb, blocks, c)))
            && (forall i :: 0 <= i < sb.ninodes ==> Ino(sb, after, i) == Ino(sb, blocks, i))
  {
    hide InUse, Ino, Blank;
    BInRange(sb, b);
    ZeroIsBlank();
    var mid, after := blocks[BBlock(sb, b) := MarkedBlock(sb, blocks, b, true)], Allocated(sb, blocks, b);
    assert DataStart(sb) <= b && after == mid[b := ZeroBlock()];
    DataWrite(sb, mid, b, ZeroBlock());
    BitWriteInodes(sb, blocks, b, true);
    forall c | 0 <= c < sb.size
      ensures InUse(sb, after, c) <==> c == b || InUse(sb, blocks, c)
    {
      BitWrite(sb, blocks, b, true, c);
      assert InUse(sb, after, c) == InUse(sb, mid, c);
    }
    forall i | 0 <= i < sb.ninodes
      ensures Ino(sb, after, i) == Ino(sb, blocks, i)
    {
      assert Ino(sb, after, i) == Ino(sb, mid, i);
      assert Ino(sb, mid, i) == Ino(sb, blocks, i);
    }
    forall y | y in own
      ensures DataStart(sb) <= y
    {
      assert OwnerOk(blocks, T, 0, 0, own, DataStart(sb), sb.size, y);
    }
  }

  lemma {:induction false} ReleaseFacts(sb: Super, blocks: seq<Block>, own: map<nat, Owner>, b: nat)
    requires SuperOk(sb, blocks) && DataStart(sb) <= b < sb.size && forall y :: y in own ==> DataStart(sb) <= y
    ensures var after := Released(sb, blocks, b);
            && SuperOk(sb, after) && AgreeBut(blocks, after, own, 0)
            && (forall c :: 0 <= c < sb.size ==> (InUse(sb, after, c) <==> c != b && InUse(sb, blocks, c)))
            && (forall i :: 0 <= i < sb.ninodes ==> Ino(sb, after, i) == Ino(sb, blocks, i))
  {
    hide InUse, Ino;
    BInRange(sb, b);
    var after := Released(sb, blocks, b);
    assert after == blocks[BBlock(sb, b) := MarkedBlock(sb, blocks, b, false)];
    BitWriteInodes(sb, blocks, b, false);
    forall c | 0 <= c < sb.size
      ensures InUse(sb, after, c) <==> c != b && InUse(sb, blocks, c)
    {
      BitWrite(sb, blocks, b, false, c);
    }
  }

  /** Giving a fresh block to pointer s of inode i. */
  lemma {:induction false} AddrAllocated(sb: Super, blocks: seq<Block>, T: Inodes, own: map<nat, Owner>, i: nat, s: nat,
                                         b: nat)
    requires Consistent(sb, blocks, T, own) && SyncedBut(sb, blocks, T, i) && i < |T| && s <= NDIRECT
             && T[i].addrs[s] == 0
    requires b < sb.size && !InUse(sb, blocks, b)
    ensures var after, T', own' := Allocated(sb, blocks, b), T[i := WithAddr(T[i], s, b)], own[b := (i, s)];
            && Consistent(sb, after, T', own') && SyncedBut(sb, after, T', i) && 0 < b
            && Grown(blocks, T, after, T')
            && (forall k :: 0 <= k < sb.ninodes ==> Ino(sb, after, k) == Ino(sb, blocks, k))
  {
    var after, T', own' := Allocated(sb, blocks, b), T[i := WithAddr(T[i], s, b)], own[b := (i, s)];
    AllocFacts(sb, blocks, T, own, b);
    hide Allocated, InUse, Ino, Owned, Blank, AgreeBut;
    OwnedAddrs(blocks, after, T, own, DataStart(sb), sb.size, i, s, b);
    GrownAddrs(blocks, after, T, own, DataStart(sb), sb.size, i, s, b);
    forall j | 0 <= j < |T'| && j != i
      ensures Synced(sb, after, T', j)
    {
      assert Synced(sb, blocks, T, j);
    }
  }

  function EntryBlocks(sb: Super, blocks: seq<Block>, x: nat, j: nat, b: nat): seq<Block>
    requires SuperOk(sb, blocks) && b < sb.size && x < |blocks| && j < NINDIRECT
  {
    Allocated(sb, blocks, b)[x := PutWords(blocks[x], j, [b])]
  }

  lemma {:induction false} EntryFacts(sb: Super, blocks: seq<Block>, T: Inodes, own: map<nat, Owner>, i: nat, j: nat,
                                      b: nat)
    requires Consistent(sb, blocks, T, own) && i < |T| && j < NINDIRECT && 0 < Indirect(T[i]) < |blocks|
    requires b < sb.size && !InUse(sb, blocks, b)
    ensures var x := Indirect(T[i]);
            var after, own' := EntryBlocks(sb, blocks, x, j, b), own[b := (i, NDIRECT + 1 + j)];
            && SuperOk(sb, after) && Bits(sb, after, own') && DataStart(sb) <= b && b !in own
            && AgreeBut(blocks, after, own, x) && after[x] == PutWords(blocks[x], j, [b])
            && (forall k :: 0 <= k < sb.ninodes ==> Ino(sb, after, k) == Ino(sb, blocks, k))
  {
    AllocFacts(sb, blocks, T, own, b);
    MappedIndirect(sb, blocks, T, own, i);
    var x, mid := Indirect(T[i]), Allocated(sb, blocks, b);
    var after, own' := EntryBlocks(sb, blocks, x, j, b), own[b := (i, NDIRECT + 1 + j)];
    DataWrite(sb, mid, x, PutWords(blocks[x], j, [b]));
    hide Allocated, InUse, Ino, Owned, Blank, PutWords;
    forall c | 0 <= c < sb.size
      ensures InUse(sb, after, c) <==> c < DataStart(sb) || c in own'
    {
      assert InUse(sb, mid, c) <==> c == b || InUse(sb, blocks, c);
      assert InUse(sb, after, c) == InUse(sb, mid, c);
    }
  }

  /** Entry j of the indirect block of inode i leads to block b, no byte of any file has changed, and
      neither has the inode on disk. */
  ghost predicate EntryGiven(sb: Super, b0: seq<Block>, b1: seq<Block>, T: Inodes, i: nat, j: nat, b: nat)
    requires j < NINDIRECT
  {
    && SuperOk(sb, b0) && SuperOk(sb, b1) && AllOk(T) && i < |T| == sb.ninodes && 0 < b
    && Grown(b0, T, b1, T) && Ref(b1, T, 0, 0, (i, NDIRECT + 1 + j)) == b && Ino(sb, b1, i) == Ino(sb, b0, i)
  }

  /** Giving a fresh block to entry j of the indirect block of inode i. */
  lemma {:induction false} EntryAllocated(sb: Super, blocks: seq<Block>, T: Inodes, own: map<nat, Owner>, i: nat,
                                          j: nat, b: nat)
    requires Consistent(sb, blocks, T, own) && SyncedBut(sb, blocks, T, i) && i < |T| && j < NINDIRECT
    requires var x := Indirect(T[i]); 0 < x < |blocks| && Word(blocks[x], j) == 0
    requires b < sb.size && !InUse(sb, blocks, b)
    ensures var after, own' := EntryBlocks(sb, blocks, Indirect(T[i]), j, b), own[b := (i, NDIRECT + 1 + j)];
            Consistent(sb, after, T, own') && SyncedBut(sb, after, T, i) && EntryGiven(sb, blocks, after, T, i, j, b)
  {
    assert AllOk(T);
    EntryFacts(sb, blocks, T, own, i, j, b);
    hide EntryBlocks, InUse, Ino, Owned, Bits, Word, PutWords, Grown, Ref, AgreeBut;
    var after := EntryBlocks(sb, blocks, Indirect(T[i]), j, b);
    OwnedEntry(blocks, after, T, own, DataStart(sb), sb.size, i, j, b);
    GrownEntry(blocks, after, T, own, DataStart(sb), sb.size, i, j, b);
    EntryRef(blocks, after, T, own, DataStart(sb), sb.size, i, j, b, (i, NDIRECT + 1 + j));
    forall f | 0 <= f < |T| && f != i
      ensures Synced(sb, after, T, f)
    {
      assert Synced(sb, blocks, T, f);
    }
  }

  lemma {:induction false} MappedIndirect(sb: Super, blocks: seq<Block>, T: Inodes, own: map<nat, Owner>, i: nat)
    requires Consistent(sb, blocks, T, own) && i < |T|
    ensures Indirect(T[i]) != 0 ==> DataStart(sb) <= Indirect(T[i]) < sb.size
  {
    IndirectOwned(blocks, T, 0, 0, own, DataStart(sb), sb.size, i);
    if Indirect(T[i]) != 0 {
      assert OwnerOk(blocks, T, 0, 0, own, DataStart(sb), sb.size, Indirect(T[i]));
    }
  }

  /** iupdate makes the disk agree with memory, and changes no file and no bit. */
  lemma {:induction false} InodeWritten(sb: Super, blocks: seq<Block>, T: Inodes, own: map<nat, Owner>, i: nat)
    requires Consistent(sb, blocks, T, own) && i < |T| && SyncedBut(sb, blocks, T, i) && DinodeOk(T[i])
    ensures IBlock(i) < |blocks|
    ensures var after := blocks[IBlock(i) := InodeBlock(sb, blocks, i, T[i])];
            && Consistent(sb, after, T, own) && (forall j :: 0 <= j < |T| ==> Synced(sb, after, T, j))
            && Grown(blocks, T, after, T)
  {
    IInRange(sb, i);
    var x, nb := IBlock(i), InodeBlock(sb, blocks, i, T[i]);
    var after := blocks[x := nb];
    assert x !in own by {
      assert x in own ==> OwnerOk(blocks, T, 0, 0, own, DataStart(sb), sb.size, x);
    }
    hide InUse, Ino, InodeBlock, Owned, Bits, Grown;
    InodeWriteBits(sb, blocks, i, T[i]);
    GrownMeta(blocks, T, own, DataStart(sb), sb.size, x, nb);
    BitsKept(sb, blocks, after, own);
    forall j | 0 <= j < |T|
      ensures Synced(sb, after, T, j)
    {
      InodeWrite(sb, blocks, i, T[i], j);
      assert j != i ==> Synced(sb, blocks, T, j);
    }
  }

  /** As Consistent, while inode who has given up its first skip indirect entries. */
  ghost predicate Draining(sb: Super, blocks: seq<Block>, T: Inodes, own: map<nat, Owner>, who: nat, skip: nat) {
    && SuperOk(sb, blocks) && |T| == sb.ninodes
    && Owned(blocks, T, who, skip, own, DataStart(sb), sb.size) && Bits(sb, blocks, own)
  }

  lemma {:induction false} DrainStart(sb: Super, blocks: seq<Block>, T: Inodes, own: map<nat, Owner>, who: nat)
    requires Consistent(sb, blocks, T, own)
    ensures Draining(sb, blocks, T, own, who, 0)
  {
    forall o: Owner | IsPointer(T, o)
      ensures RefOk(blocks, T, who, 0, own, o)
    {
      assert RefOk(blocks, T, 0, 0, own, o);
    }
    forall x | x in own
      ensures OwnerOk(blocks, T, who, 0, own, DataStart(sb), sb.size, x)
    {
      assert OwnerOk(blocks, T, 0, 0, own, DataStart(sb), sb.size, x);
    }
  }

  /** An owned block is marked in use, and giving it up touches no owned block. */
  lemma {:induction false} OwnedRelease(sb: Super, blocks: seq<Block>, T: Inodes, own: map<nat, Owner>, who: nat,
                                        skip: nat, b: nat)
    requires Draining(sb, blocks, T, own, who, skip) && b in own
    ensures DataStart(sb) <= b < sb.size && InUse(sb, blocks, b) && 0 !in own
    ensures var after := Released(sb, blocks, b);
            && SuperOk(sb, after) && AgreeBut(blocks, after, own, 0) && Bits(sb, after, own - {b})
            && (forall i :: 0 <= i < sb.ninodes ==> Ino(sb, after, i) == Ino(sb, blocks, i))
  {
    hide InUse, Ino;
    forall y | y in own
      ensures DataStart(sb) <= y < sb.size
    {
      assert OwnerOk(blocks, T, who, skip, own, DataStart(sb), sb.size, y);
    }
    ReleaseFacts(sb, blocks, own, b);
    hide Released, Owned;
    var after := Released(sb, blocks, b);
    forall c | 0 <= c < sb.size
      ensures InUse(sb, after, c) <==> c < DataStart(sb) || c in own - {b}
    {
      assert InUse(sb, after, c) <==> c != b && InUse(sb, blocks, c);
    }
  }

  lemma {:induction false} SyncedKept(sb: Super, blocks: seq<Block>, T: Inodes, after: seq<Block>, T': Inodes, i: nat)
    requires SuperOk(sb, blocks) && SuperOk(sb, after) && |T| == sb.ninodes && |T'| == |T| && i < |T|
    requires T' == T[i := T'[i]] && SyncedBut(sb, blocks, T, i)
    requires forall k :: 0 <= k < sb.ninodes ==> Ino(sb, after, k) == Ino(sb, blocks, k)
    ensures SyncedBut(sb, after, T', i)
  {
    hide Ino;
    forall j | 0 <= j < |T'| && j != i
      ensures Synced(sb, after, T', j)
    {
      assert Synced(sb, blocks, T, j);
    }
  }

  // ---- how much one chunk of filewrite can log ----

  const CHUNK := (LOGSIZE - 1 - 1 - 2) / 2 * 512

  lemma {:induction false} AtMost(s: set<nat>, t: set<nat>)
    requires s <= t
    ensures |s| <= |t|
    decreases t
  {
    if s != {} {
      var x :| x in s;
      AtMost(s - {x}, t - {x});
    }
  }

  lemma {:induction false} UnionBound(s: set<nat>, t: set<nat>)
    ensures |s + t| <= |s| + |t|
    decreases t
  {
    if t == {} {
      assert s + t == s;
    } else {
      var x :| x in t;
      UnionBound(s + {x}, t - {x});
      assert s + t == (s + {x}) + (t - {x});
      Grows(s, x);
    }
  }

  /** On an image with a single bitmap block. */
  lemma {:induction false} OneBitmapSector(sb: Super)
    requires sb.size <= BPB
    ensures |BitmapSectors(sb)| <= 1
  {
    forall x | x in BitmapSectors(sb)
      ensures x == BBlock(sb, 0)
    {
      var b: nat :| b < sb.size && x == BBlock(sb, b);
    }
    AtMost(BitmapSectors(sb), {BBlock(sb, 0)});
  }

  function Nth(blocks: seq<Block>, T: Inodes, i: nat, bn: nat): nat
    requires AllOk(T) && i < |T|
  {
    if bn < MAXFILE then BlockFor(blocks, T, i, bn) else 0
  }

  /** A chunk touches at most four data blocks, at any offset. */
  lemma {:induction false} FourBlocks(blocks: seq<Block>, T: Inodes, i: nat, off: nat, n: nat)
    requires AllOk(T) && i < |T| && off + n <= MAXFILE * BSIZE && n <= CHUNK
    ensures |FileBlocks(blocks, T, i, off, n)| <= 4
  {
    var q := off / BSIZE;
    var b0, b1 := Nth(blocks, T, i, q), Nth(blocks, T, i, q + 1);
    var b2, b3 := Nth(blocks, T, i, q + 2), Nth(blocks, T, i, q + 3);
    var four := {b0, b1, b2, b3};
    hide BlockFor;
    forall x | x in FileBlocks(blocks, T, i, off, n)
      ensures x in four
    {
      var k: nat :| off <= k < off + n && x == BlockFor(blocks, T, i, k / BSIZE);
      assert q <= k / BSIZE <= q + 3;
      assert x == Nth(blocks, T, i, k / BSIZE);
    }
    AtMost(FileBlocks(blocks, T, i, off, n), four);
    FourElements(b0, b1, b2, b3);
  }

  lemma {:induction false} FourElements(a: nat, b: nat, c: nat, d: nat)
    ensures |{a, b, c, d}| <= 4
  {
    UnionBound({a, b}, {c, d});
    UnionBound({a}, {b});
    UnionBound({c}, {d});
    assert {a, b, c, d} == {a, b} + {c, d} && {a, b} == {a} + {b} && {c, d} == {c} + {d};
  }

  /** The data blocks that a write of n bytes may log: allocated ones, and at most five of them, four of
      the file and its indirect block, for a chunk. */
  ghost predicate TouchedOk(own: map<nat, Owner>, touched: set<nat>, n: nat) {
    (n <= CHUNK ==> |touched| <= 5) && forall y :: y in touched ==> y == 0 || y in own
  }

  lemma {:induction false} NothingTouched(own: map<nat, Owner>, n: nat)
    ensures TouchedOk(own, {}, n)
  {
  }

  lemma {:induction false} TouchedSet(sb: Super, b1: seq<Block>, T1: Inodes, own1: map<nat, Owner>, b2: seq<Block>,
                                      T2: Inodes, own2: map<nat, Owner>, logged: set<nat>, i: nat, off: nat, n: nat,
                                      m: nat)
    requires Consistent(sb, b1, T1, own1) && Consistent(sb, b2, T2, own2) && i < |T1| && i < |T2|
    requires AllOk(T1) && AllOk(T2) && Took(DataStart(sb), own1, own2, logged) && off + n <= MAXFILE * BSIZE && n <= m
    ensures TouchedOk(own2, IndirectSet(T2[i]) + FileBlocks(b1, T1, i, off, n), m)
  {
    if m <= CHUNK {
      FourBlocks(b1, T1, i, off, n);
      UnionBound(IndirectSet(T2[i]), FileBlocks(b1, T1, i, off, n));
    }
    IndirectOwned(b2, T2, 0, 0, own2, DataStart(sb), sb.size, i);
    hide Owned, BlockFor;
    forall y | y in FileBlocks(b1, T1, i, off, n)
      ensures y == 0 || y in own2
    {
      var k: nat :| off <= k < off + n && y == BlockFor(b1, T1, i, k / BSIZE);
      MappedOwned(b1, T1, own1, DataStart(sb), sb.size, i, k / BSIZE);
      assert y in own1 ==> y in own2.Keys;
    }
  }

  lemma {:induction false} TouchedCover(sb: Super, blocks: seq<Block>, T: Inodes, i: nat, off: nat, n: nat, d: Dinode)
    requires AllOk(T) && i < |T| && off + n <= MAXFILE * BSIZE && IndirectStays(T[i], d)
    ensures Footprint(sb, blocks, T, i, off, n) + BitmapSectors(sb) + IndirectSet(d)
            <= BitmapSectors(sb) + (IndirectSet(d) + FileBlocks(blocks, T, i, off, n))
  {
    hide BitmapSectors, FileBlocks;
  }

  /** The most sectors a chunk can log: bitmap blocks, one indirect block, four data blocks, one inode. */
  ghost function MostLogged(sb: Super): nat {
    |BitmapSectors(sb)| + 6
  }

  lemma {:induction false} ChunkBound(sb: Super, own: map<nat, Owner>, i: nat, n: nat, logged: set<nat>,
                                      touched: set<nat>)
    requires n <= CHUNK && TouchedOk(own, touched, n)
    requires logged <= BitmapSectors(sb) + touched + {IBlock(i)}
    ensures |logged| <= MostLogged(sb)
  {
    hide BitmapSectors;
    UnionBound(BitmapSectors(sb), touched);
    UnionBound(BitmapSectors(sb) + touched, {IBlock(i)});
    AtMost(logged, BitmapSectors(sb) + touched + {IBlock(i)});
  }

  /** Seven on an image with a single bitmap block. */
  lemma {:induction false} SevenLogged(sb: Super)
    requires sb.size <= BPB
    ensures MostLogged(sb) <= 7
  {
    OneBitmapSector(sb);
  }

  /** One call of log_write, and how many buffers the caller holds then, the logged one included. */
  datatype LogCall = LogCall(sector: nat, data: Block, held: nat)

  /** The blocks after these calls. */
  function Replay(blocks: seq<Block>, calls: seq<LogCall>): (r: seq<Block>)
    ensures |r| == |blocks|
    decreases |calls|
  {
    if calls == [] then blocks
    else
      var c, r := calls[|calls| - 1], Replay(blocks, calls[..|calls| - 1]);
      if c.sector < |r| then r[c.sector := c.data] else r
  }

  function Named(calls: seq<LogCall>): set<nat> {
    set c | c in calls :: c.sector
  }

  /** Nobody holds more than two buffers at a log_write. */
  ghost predicate HoldFew(calls: seq<LogCall>) {
    forall c :: c in calls ==> c.held <= 2
  }

  lemma {:induction false} ReplayMore(blocks: seq<Block>, calls: seq<LogCall>, c: LogCall)
    requires c.sector < |blocks|
    ensures Replay(blocks, calls + [c]) == Replay(blocks, calls)[c.sector := c.data]
    ensures Named(calls + [c]) == Named(calls) + {c.sector}
  {
    assert (calls + [c])[..|calls|] == calls;
    assert c in calls + [c];
  }

  // ---- room below the log ----

  ghost function FreeBelow(sb: Super, blocks: seq<Block>, lim: nat): set<nat>
    requires SuperOk(sb, blocks)
  {
    set c: nat | DataStart(sb) <= c < lim && c < sb.size && !InUse(sb, blocks, c)
  }

  /** No block from lim on is in use. */
  ghost predicate Clear(sb: Super, blocks: seq<Block>, lim: nat) {
    && SuperOk(sb, blocks) && DataStart(sb) <= lim <= sb.size
    && forall x: nat :: lim <= x < sb.size ==> !InUse(sb, blocks, x)
  }

  ghost predicate AllBelow(calls: seq<LogCall>, lim: nat) {
    forall c :: c in calls ==> c.sector < lim
  }

  /** Only metadata and owned blocks are logged. */
  ghost predicate Logs(sb: Super, own: map<nat, Owner>, logged: set<nat>) {
    forall y :: y in logged ==> y < DataStart(sb) || y in own
  }

  lemma {:induction false} LoggedOwned(sb: Super, blocks: seq<Block>, own: map<nat, Owner>, logged: set<nat>,
                                       touched: set<nat>, i: nat, n: nat)
    requires SuperOk(sb, blocks) && i < sb.ninodes
    requires logged <= BitmapSectors(sb) + touched + {IBlock(i)} && TouchedOk(own, touched, n)
    ensures Logs(sb, own, logged)
  {
    forall y | y in logged && y !in touched
      ensures y < DataStart(sb)
    {
      IInRange(sb, i);
      if y in BitmapSectors(sb) {
        var b: nat :| b < sb.size && y == BBlock(sb, b);
        BInRange(sb, b);
      }
    }
  }

  lemma {:induction false} OwnerIs(sb: Super, blocks: seq<Block>, T: Inodes, own: map<nat, Owner>, x: nat)
    requires Consistent(sb, blocks, T, own) && x in own
    ensures AllOk(T) && OwnerOk(blocks, T, 0, 0, own, DataStart(sb), sb.size, x)
  {
  }

  // ---- when the blocks run out ----

  ghost function Interval(lo: nat, n: nat): set<nat> {
    if n == 0 then {} else Interval(lo, n - 1) + {lo + n - 1}
  }

  lemma {:induction false} IntervalIs(lo: nat, n: nat)
    ensures |Interval(lo, n)| == n && forall c :: c in Interval(lo, n) <==> lo <= c < lo + n
  {
    if n > 0 {
      IntervalIs(lo, n - 1);
    }
  }

  lemma {:induction false} FreeIs(sb: Super, blocks: seq<Block>, T: Inodes, own: map<nat, Owner>, lim: nat)
    requires Consistent(sb, blocks, T, own) && lim <= sb.size
    ensures forall c :: c in FreeBelow(sb, blocks, lim) <==> DataStart(sb) <= c < lim && c !in own
  {
    hide InUse, DataStart, Owned;
  }

  /** Every data block is owned or free. */
  lemma {:induction false} FreeCount(sb: Super, blocks: seq<Block>, T: Inodes, own: map<nat, Owner>)
    requires Consistent(sb, blocks, T, own)
    ensures |own| + |FreeBelow(sb, blocks, sb.size)| == sb.size - DataStart(sb)
  {
    hide Bits, DataStart, Owned, FreeBelow, Interval;
    var free := FreeBelow(sb, blocks, sb.size);
    FreeIs(sb, blocks, T, own, sb.size);
    forall x | x in own
      ensures DataStart(sb) <= x < sb.size
    {
      OwnerIs(sb, blocks, T, own, x);
    }
    PartCount(own.Keys, free, DataStart(sb), sb.size - DataStart(sb));
    assert |own.Keys| == |own|;
  }

  lemma {:induction false} PartCount(s: set<nat>, t: set<nat>, lo: nat, n: nat)
    requires s !! t && forall c :: c in s || c in t <==> lo <= c < lo + n
    ensures |s| + |t| == n
  {
    hide Interval;
    IntervalIs(lo, n);
    assert s + t == Interval(lo, n);
    DisjointUnion(s, t);
  }

  /** There are fewer free blocks than the pointers of p need. */
  ghost predicate Lacks(sb: Super, blocks: seq<Block>, T: Inodes, i: nat, p: set<nat>) {
    && SuperOk(sb, blocks) && AllOk(T) && i < |T|
    && |FreeBelow(sb, blocks, sb.size)| < Needed(blocks, T, i, p)
  }

  /** If blocks run out, there were too few; if not, there were enough. */
  lemma {:induction false} ChargedExactly(sb: Super, b0: seq<Block>, T0: Inodes, own0: map<nat, Owner>, b1: seq<Block>,
                                          T1: Inodes, own1: map<nat, Owner>, ok: bool, i: nat, p: set<nat>)
    requires Consistent(sb, b0, T0, own0) && Consistent(sb, b1, T1, own1)
    requires Charged(ok, b0, T0, own0, b1, T1, own1, i, p)
    requires !ok ==> forall c :: 0 <= c < sb.size ==> InUse(sb, b1, c)
    ensures !ok <==> Lacks(sb, b0, T0, i, p)
  {
    hide Owned, Bits, InUse, Slots, Needed, DataStart;
    FreeCount(sb, b0, T0, own0);
    FreeCount(sb, b1, T1, own1);
    if !ok {
      assert FreeBelow(sb, b1, sb.size) == {};
    }
  }

  lemma {:induction false} AddrCharged(sb: Super, blocks: seq<Block>, T: Inodes, own: map<nat, Owner>, i: nat, s: nat,
                                       b: nat)
    requires Consistent(sb, blocks, T, own) && i < |T| && s <= NDIRECT && T[i].addrs[s] == 0
    requires b < sb.size && !InUse(sb, blocks, b)
    ensures Charged(true, blocks, T, own, Allocated(sb, blocks, b), T[i := WithAddr(T[i], s, b)], own[b := (i, s)], i,
                    {s})
  {
    AllocFacts(sb, blocks, T, own, b);
    hide Allocated, InUse, Ino, Owned, Blank, AgreeBut, Charged;
    ChargedAddr(blocks, Allocated(sb, blocks, b), T, own, DataStart(sb), sb.size, i, s, b);
  }

  lemma {:induction false} EntryCharged(sb: Super, blocks: seq<Block>, T: Inodes, own: map<nat, Owner>, i: nat, j: nat,
                                        b: nat)
    requires Consistent(sb, blocks, T, own) && i < |T| && j < NINDIRECT
    requires var x := Indirect(T[i]); 0 < x < |blocks| && Word(blocks[x], j) == 0
    requires b < sb.size && !InUse(sb, blocks, b)
    ensures Charged(true, blocks, T, own, EntryBlocks(sb, blocks, Indirect(T[i]), j, b), T,
                    own[b := (i, NDIRECT + 1 + j)], i, {NDIRECT + 1 + j})
  {
    EntryFacts(sb, blocks, T, own, i, j, b);
    hide EntryBlocks, InUse, Ino, Owned, Bits, Word, PutWords, AgreeBut, Charged;
    ChargedEntry(blocks, EntryBlocks(sb, blocks, Indirect(T[i]), j, b), T, own, DataStart(sb), sb.size, i, j, b);
  }

  lemma {:induction false} EntryNotYet(sb: Super, blocks: seq<Block>, T: Inodes, own: map<nat, Owner>, i: nat, j: nat)
    requires Consistent(sb, blocks, T, own) && i < |T| && j < NINDIRECT
    requires var x := Indirect(T[i]); 0 < x < |blocks| && Word(blocks[x], j) == 0
    ensures SuperOk(sb, blocks) && |T| == sb.ninodes && Bits(sb, blocks, own)
    ensures AllOk(T) && DinodeOk(T[i]) && NDIRECT + 1 + j !in Slots(blocks, T, i)
  {
    hide Bits, Word;
  }

  lemma {:induction false} EntryFound(blocks: seq<Block>, T: Inodes, own: map<nat, Owner>, i: nat, j: nat)
    requires AllOk(T) && i < |T| && j < NINDIRECT && 0 < Indirect(T[i]) < |blocks|
    requires Word(blocks[Indirect(T[i])], j) != 0
    ensures Charged(true, blocks, T, own, blocks, T, own, i, {NDIRECT + 1 + j})
  {
    assert NDIRECT + 1 + j in Slots(blocks, T, i);
    hide Slots, Charged;
    ChargedNone(blocks, T, own, i, {NDIRECT + 1 + j});
  }

  lemma {:induction false} DataKeepsSlots(sb: Super, blocks: seq<Block>, T: Inodes, own: map<nat, Owner>, i: nat,
                                          bn: nat, nb: Block)
    requires Consistent(sb, blocks, T, own) && AllOk(T) && i < |T| && bn < MAXFILE && BlockFor(blocks, T, i, bn) != 0
    ensures var x := BlockFor(blocks, T, i, bn);
            x < |blocks| && Slots(blocks[x := nb], T, i) == Slots(blocks, T, i)
  {
    var x := BlockFor(blocks, T, i, bn);
    MappedOwned(blocks, T, own, DataStart(sb), sb.size, i, bn);
    hide Owned, BlockFor, Slots;
    SlotsKept(blocks, blocks[x := nb], T, own, DataStart(sb), sb.size, x, i);
  }

  lemma {:induction false} InodeKeepsSlots(sb: Super, blocks: seq<Block>, T: Inodes, own: map<nat, Owner>, i: nat,
                                           nb: Block)
    requires Consistent(sb, blocks, T, own) && AllOk(T) && i < |T|
    ensures IBlock(i) < |blocks| && Slots(blocks[IBlock(i) := nb], T, i) == Slots(blocks, T, i)
  {
    IInRange(sb, i);
    if IBlock(i) in own {
      OwnerIs(sb, blocks, T, own, IBlock(i));
    }
    hide Owned, Slots;
    SlotsKept(blocks, blocks[IBlock(i) := nb], T, own, DataStart(sb), sb.size, IBlock(i), i);
  }

  // ---- the transactions of a filewrite ----

  /** The inodes as the disk has them. */
  function OnDisk(sb: Super, blocks: seq<Block>): (T: Inodes)
    requires SuperOk(sb, blocks)
    ensures |T| == sb.ninodes && AllOk(T)
  {
    seq(sb.ninodes, i requires 0 <= i < sb.ninodes => Ino(sb, blocks, i))
  }

  /** c with src over it at off, if off is not beyond its end. */
  function Spliced(c: seq<Byte>, off: nat, src: seq<Byte>): seq<Byte> {
    if off <= |c| then Splice(c, off, src) else c
  }

  /** A disk with these blocks is a consistent file system in which addr has been written at off into
      file i, and no other file of (b0, T0) has changed. */
  ghost predicate UpTo(sb: Super, b0: seq<Block>, T0: Inodes, i: nat, off: nat, addr: seq<Byte>, b: seq<Block>)
    requires AllOk(T0) && i < |T0|
  {
    && SuperOk(sb, b) && sb.ninodes == |T0| && (exists own :: Consistent(sb, b, OnDisk(sb, b), own))
    && FilesKept(b0, T0, b, OnDisk(sb, b), i) && NoHole(b, OnDisk(sb, b), i)
    && Content(b, OnDisk(sb, b), i) == Spliced(Content(b0, T0, i), off, addr)
  }

  /** One transaction: the blocks before it, its calls of log_write, and how many bytes of the source
      are in the file before and after it. */
  datatype Chunk = Chunk(start: seq<Block>, calls: seq<LogCall>, before: nat, after: nat)

  ghost predicate ChunkOk(sb: Super, b0: seq<Block>, T0: Inodes, i: nat, off: nat, addr: seq<Byte>, c: Chunk)
    requires AllOk(T0) && i < |T0|
  {
    && c.before <= c.after <= |addr| && |c.start| == |b0| && |Named(c.calls)| <= MostLogged(sb) && HoldFew(c.calls)
    && UpTo(sb, b0, T0, i, off, addr[..c.before], c.start)
    && UpTo(sb, b0, T0, i, off, addr[..c.after], Replay(c.start, c.calls))
  }

  function After(b0: seq<Block>, chunks: seq<Chunk>): seq<Block> {
    if chunks == [] then b0 else var c := chunks[|chunks| - 1]; Replay(c.start, c.calls)
  }

  ghost predicate ChunksBelow(chunks: seq<Chunk>, lim: nat) {
    forall j :: 0 <= j < |chunks| ==> AllBelow(chunks[j].calls, lim)
  }

  ghost predicate ChunksClear(sb: Super, chunks: seq<Chunk>, lim: nat) {
    forall j :: 0 <= j < |chunks| ==>
                  Clear(sb, chunks[j].start, lim) && Clear(sb, Replay(chunks[j].start, chunks[j].calls), lim)
  }

  /** How many of n bytes a filewrite at off tries to write: all, or the whole chunks that the largest
      file has room for. */
  function Attempted(off: nat, size: nat, n: int): nat {
    if n <= 0 || off > size || off > MAXFILE * BSIZE then 0
    else if off + n <= MAXFILE * BSIZE then n
    else (MAXFILE * BSIZE - off) / CHUNK * CHUNK
  }

  /** The chunk at i: whether it is written or refused. */
  lemma {:induction false} AttemptedAt(off: nat, size: nat, n: int, i: nat, k: nat)
    requires i == k * CHUNK < n && off <= size && off + i <= MAXFILE * BSIZE
    ensures var m := Min(n - i, CHUNK);
            if off + i + m <= MAXFILE * BSIZE then i + m <= Attempted(off, size, n) else i == Attempted(off, size, n)
  {
    FloorAt(MAXFILE * BSIZE - off, CHUNK, k);
  }

  lemma {:induction false} FloorAt(x: nat, c: nat, k: nat)
    requires c > 0 && k * c <= x
    ensures if x < (k + 1) * c then x / c * c == k * c else (k + 1) * c <= x / c * c
  {
    var q := x / c;
    assert x == q * c + x % c && (k + 1) * c == k * c + c;
    if q <= k {
      MulMono(q, k, c);
      DivModUnique(x, c, k, x - k * c);
    } else {
      MulMono(k + 1, q, c);
    }
  }

  function LoggedBy(chunks: seq<Chunk>): set<nat> {
    if chunks == [] then {} else LoggedBy(chunks[..|chunks| - 1]) + Named(chunks[|chunks| - 1].calls)
  }

  ghost predicate SetBelow(s: set<nat>, lim: nat) {
    forall y :: y in s ==> y < lim
  }

  lemma {:induction false} NamedBelow(calls: seq<LogCall>, lim: nat)
    ensures AllBelow(calls, lim) <==> SetBelow(Named(calls), lim)
  {
    assert forall x :: x in calls ==> x.sector in Named(calls);
  }

  lemma {:induction false} LoggedBelow(chunks: seq<Chunk>, lim: nat)
    ensures ChunksBelow(chunks, lim) <==> SetBelow(LoggedBy(chunks), lim)
    decreases |chunks|
  {
    hide AllBelow, Named;
    if chunks != [] {
      var n := |chunks| - 1;
      var front, c := chunks[..n], chunks[n];
      LoggedBelow(front, lim);
      NamedBelow(c.calls, lim);
      assert LoggedBy(chunks) == LoggedBy(front) + Named(c.calls);
      assert ChunksBelow(chunks, lim) <==> ChunksBelow(front, lim) && AllBelow(c.calls, lim) by {
        assert forall j :: 0 <= j < n ==> front[j] == chunks[j];
      }
    }
  }

  /** What is in use in these blocks is metadata or owned. */
  ghost predicate Within(sb: Super, blocks: seq<Block>, own: map<nat, Owner>) {
    SuperOk(sb, blocks) && forall x: nat :: x < sb.size && InUse(sb, blocks, x) ==> x < DataStart(sb) || x in own
  }

  ghost predicate ChunksWithin(sb: Super, chunks: seq<Chunk>, own: map<nat, Owner>) {
    forall j :: 0 <= j < |chunks| ==>
                  Within(sb, chunks[j].start, own) && Within(sb, Replay(chunks[j].start, chunks[j].calls), own)
  }

  /** The accounts of a filewrite that has filled in the pointers of p with these transactions. */
  ghost predicate Books(sb: Super, b0: seq<Block>, T0: Inodes, own0: map<nat, Owner>, b1: seq<Block>, T1: Inodes,
                        own1: map<nat, Owner>, i: nat, p: set<nat>, chunks: seq<Chunk>)
  {
    && Charged(true, b0, T0, own0, b1, T1, own1, i, p) && Took(DataStart(sb), own0, own1, LoggedBy(chunks))
    && Logs(sb, own1, LoggedBy(chunks)) && ChunksWithin(sb, chunks, own1)
  }

  lemma {:induction false} BooksStart(sb: Super, b: seq<Block>, T: Inodes, own: map<nat, Owner>, i: nat, off: nat)
    requires AllOk(T) && i < |T|
    ensures Books(sb, b, T, own, b, T, own, i, Range(off, 0), [])
  {
    RangeNone(off);
    ChargedNone(b, T, own, i, {});
    TookNone(DataStart(sb), own, {});
  }

  lemma {:induction false} BitsWithin(sb: Super, blocks: seq<Block>, T: Inodes, own: map<nat, Owner>,
                                      own': map<nat, Owner>)
    requires Consistent(sb, blocks, T, own) && own.Keys <= own'.Keys
    ensures Within(sb, blocks, own')
  {
    hide InUse, Owned, DataStart;
    forall x: nat | x < sb.size && InUse(sb, blocks, x)
      ensures x < DataStart(sb) || x in own'
    {
      assert x in own ==> x in own.Keys;
    }
  }

  lemma {:induction false} ChunksStay(sb: Super, chunks: seq<Chunk>, own: map<nat, Owner>, own': map<nat, Owner>)
    requires ChunksWithin(sb, chunks, own) && own.Keys <= own'.Keys
    ensures ChunksWithin(sb, chunks, own')
  {
    hide InUse, Replay, DataStart;
    forall b | Within(sb, b, own)
      ensures Within(sb, b, own')
    {
      assert forall x: nat :: x in own ==> x in own.Keys;
    }
  }

  lemma {:induction false} LoggedMore(chunks: seq<Chunk>, c: Chunk)
    ensures LoggedBy(chunks + [c]) == LoggedBy(chunks) + Named(c.calls)
  {
    hide Named;
    assert (chunks + [c])[..|chunks|] == chunks;
  }

  lemma {:induction false} LogsMore(sb: Super, own: map<nat, Owner>, own': map<nat, Owner>, s: set<nat>, t: set<nat>)
    requires Logs(sb, own, s) && Logs(sb, own', t) && own.Keys <= own'.Keys
    ensures Logs(sb, own', s + t)
  {
    hide DataStart;
    assert forall y :: y in own ==> y in own'.Keys;
  }

  lemma {:induction false} WithinMore(sb: Super, chunks: seq<Chunk>, c: Chunk, own: map<nat, Owner>)
    requires ChunksWithin(sb, chunks, own) && Within(sb, c.start, own) && Within(sb, Replay(c.start, c.calls), own)
    ensures ChunksWithin(sb, chunks + [c], own)
  {
    hide Within, Replay;
  }

  lemma {:induction false} BooksMore(sb: Super, b0: seq<Block>, T0: Inodes, own0: map<nat, Owner>, b1: seq<Block>,
                                     T1: Inodes, own1: map<nat, Owner>, b2: seq<Block>, T2: Inodes,
                                     own2: map<nat, Owner>, i: nat, p: set<nat>, q: set<nat>, chunks: seq<Chunk>,
                                     c: Chunk)
    requires Books(sb, b0, T0, own0, b1, T1, own1, i, p, chunks)
    requires Consistent(sb, b1, T1, own1) && Consistent(sb, b2, T2, own2)
    requires Charged(true, b1, T1, own1, b2, T2, own2, i, q)
    requires Took(DataStart(sb), own1, own2, Named(c.calls)) && Logs(sb, own2, Named(c.calls))
    requires c.start == b1 && Replay(c.start, c.calls) == b2
    ensures Books(sb, b0, T0, own0, b2, T2, own2, i, p + q, chunks + [c])
  {
    hide Consistent, Charged, Took, Replay, Within, ChunksWithin, Named, Logs, LoggedBy, DataStart;
    TookKeys(DataStart(sb), own1, own2, Named(c.calls));
    LoggedMore(chunks, c);
    ChargedTrans(true, b0, T0, own0, b1, T1, own1, b2, T2, own2, i, p, q);
    TookWider(DataStart(sb), own1, own2, Named(c.calls), LoggedBy(chunks + [c]));
    TookTrans(DataStart(sb), own0, own1, own2, LoggedBy(chunks), LoggedBy(chunks + [c]));
    LogsMore(sb, own1, own2, LoggedBy(chunks), Named(c.calls));
    ChunksStay(sb, chunks, own1, own2);
    BitsWithin(sb, b1, T1, own1, own2);
    BitsWithin(sb, b2, T2, own2, own2);
    WithinMore(sb, chunks, c, own2);
  }

  lemma {:induction false} TookKeys(lo: nat, own0: map<nat, Owner>, own1: map<nat, Owner>, logged: set<nat>)
    requires Took(lo, own0, own1, logged)
    ensures own0.Keys <= own1.Keys
  {
  }

  /** A filewrite stays below lim exactly if the free blocks below lim are enough for it. */
  lemma {:induction false} BooksBelow(sb: Super, b0: seq<Block>, T0: Inodes, own0: map<nat, Owner>, b1: seq<Block>,
                                      T1: Inodes, own1: map<nat, Owner>, i: nat, p: set<nat>, chunks: seq<Chunk>,
                                      lim: nat)
    requires Books(sb, b0, T0, own0, b1, T1, own1, i, p, chunks) && Clear(sb, b0, lim)
    requires Consistent(sb, b0, T0, own0) && Consistent(sb, b1, T1, own1)
    ensures AllOk(T0) && i < |T0|
    ensures ChunksBelow(chunks, lim) <==> Needed(b0, T0, i, p) <= |FreeBelow(sb, b0, lim)|
    ensures ChunksBelow(chunks, lim) ==> ChunksClear(sb, chunks, lim)
  {
    hide Consistent, InUse, Slots, Needed, DataStart, Replay, ChunksBelow, ChunksClear, ChunksWithin, Took, Logs,
         LoggedBy, SetBelow, FreeBelow;
    LoggedBelow(chunks, lim);
    OwnBelow(sb, b0, T0, own0, lim);
    FirstTaken(sb, b0, b1, T1, own0, own1, LoggedBy(chunks), lim);
    LoggedAsOwned(sb, b0, own0, own1, LoggedBy(chunks), lim);
    if SetBelow(own1.Keys, lim) {
      WithinClear(sb, b0, chunks, own1, lim);
    }
  }

  lemma {:induction false} WithinClear(sb: Super, b0: seq<Block>, chunks: seq<Chunk>, own: map<nat, Owner>, lim: nat)
    requires ChunksWithin(sb, chunks, own) && SetBelow(own.Keys, lim) && Clear(sb, b0, lim)
    ensures ChunksClear(sb, chunks, lim)
  {
    hide InUse, DataStart, Replay;
    forall b | Within(sb, b, own)
      ensures Clear(sb, b, lim)
    {
      assert forall x: nat :: x in own ==> x in own.Keys;
    }
  }

  lemma {:induction false} OwnBelow(sb: Super, blocks: seq<Block>, T: Inodes, own: map<nat, Owner>, lim: nat)
    requires Consistent(sb, blocks, T, own) && Clear(sb, blocks, lim)
    ensures SetBelow(own.Keys, lim)
    ensures forall c :: c in FreeBelow(sb, blocks, lim) <==> DataStart(sb) <= c < lim && c !in own
  {
    FreeIs(sb, blocks, T, own, lim);
    hide Owned, InUse, DataStart, FreeBelow;
    forall x | x in own
      ensures x < lim
    {
      OwnerIs(sb, blocks, T, own, x);
      assert InUse(sb, blocks, x);
    }
  }

  /** balloc takes the first free block: it stays below lim as long as there is one below lim. */
  lemma {:induction false} FirstTaken(sb: Super, b0: seq<Block>, b1: seq<Block>, T1: Inodes, own0: map<nat, Owner>,
                                      own1: map<nat, Owner>, logged: set<nat>, lim: nat)
    requires Consistent(sb, b1, T1, own1) && Clear(sb, b0, lim) && SetBelow(own0.Keys, lim)
    requires Took(DataStart(sb), own0, own1, logged)
    requires forall c :: c in FreeBelow(sb, b0, lim) <==> DataStart(sb) <= c < lim && c !in own0
    ensures SetBelow(own1.Keys, lim) <==> |own1| <= |own0| + |FreeBelow(sb, b0, lim)|
  {
    hide Consistent, InUse, DataStart, FreeBelow;
    forall x | x in own1
      ensures DataStart(sb) <= x
    {
      OwnerIs(sb, b1, T1, own1, x);
    }
    forall x | x in own1.Keys && x !in own0.Keys
      ensures Gapless(DataStart(sb), own1.Keys, x)
    {
      assert TakenTo(DataStart(sb), own1, x);
    }
    FirstCount(own0.Keys, own1.Keys, FreeBelow(sb, b0, lim), DataStart(sb), lim);
    assert |own1.Keys| == |own1| && |own0.Keys| == |own0|;
  }

  ghost predicate Gapless(lo: nat, s: set<nat>, x: nat) {
    forall c: nat :: lo <= c < x ==> c in s
  }

  lemma {:induction false} FirstCount(s: set<nat>, t: set<nat>, free: set<nat>, lo: nat, lim: nat)
    requires s <= t && SetBelow(s, lim) && forall c :: c in free <==> lo <= c < lim && c !in s
    requires forall x :: x in t ==> lo <= x
    requires forall x :: x in t && x !in s ==> Gapless(lo, t, x)
    ensures SetBelow(t, lim) <==> |t| <= |s| + |free|
  {
    DisjointUnion(s, t - s);
    assert s + (t - s) == t;
    if SetBelow(t, lim) {
      SubsetSize(t - s, free);
    } else {
      var x :| x in t && x >= lim;
      assert Gapless(lo, t, x);
      SubsetSize(free + {x}, t - s);
    }
  }

  lemma {:induction false} LoggedAsOwned(sb: Super, b0: seq<Block>, own0: map<nat, Owner>, own1: map<nat, Owner>,
                                         logged: set<nat>, lim: nat)
    requires Clear(sb, b0, lim) && SetBelow(own0.Keys, lim)
    requires Took(DataStart(sb), own0, own1, logged) && Logs(sb, own1, logged)
    ensures SetBelow(own1.Keys, lim) <==> SetBelow(logged, lim)
  {
    hide InUse, DataStart, TakenTo;
    assert forall x :: x in own1 <==> x in own1.Keys;
    assert forall x :: x in own0 <==> x in own0.Keys;
  }

  /** filewrite stopped in the chunk at k for want of blocks. */
  lemma {:induction false} RanOut(sb: Super, b0: seq<Block>, T0: Inodes, own0: map<nat, Owner>, b1: seq<Block>,
                                  T1: Inodes, own1: map<nat, Owner>, b2: seq<Block>, T2: Inodes, own2: map<nat, Owner>,
                                  i: nat, off: nat, k: nat, n: nat, chunks: seq<Chunk>, all: nat, lim: nat)
    requires Consistent(sb, b0, T0, own0) && Consistent(sb, b2, T2, own2) && AllOk(T0) && i < |T0|
    requires Books(sb, b0, T0, own0, b1, T1, own1, i, Range(off, k), chunks) && k + n <= all
    requires Charged(false, b1, T1, own1, b2, T2, own2, i, Range(off + k, n))
    requires forall c :: 0 <= c < sb.size ==> InUse(sb, b2, c)
    ensures Lacks(sb, b0, T0, i, Range(off, all))
    ensures Clear(sb, b0, lim) ==> |FreeBelow(sb, b0, lim)| < Needed(b0, T0, i, Range(off, all))
  {
    hide Consistent, InUse, Charged, Range, Slots, Needed, DataStart;
    ChargedTrans(false, b0, T0, own0, b1, T1, own1, b2, T2, own2, i, Range(off, k), Range(off + k, n));
    RangeJoin(off, k, n);
    RangeMore(off, k + n, all);
    ChargedMore(b0, T0, own0, b2, T2, own2, i, Range(off, k + n), Range(off, all));
    ChargedExactly(sb, b0, T0, own0, b2, T2, own2, false, i, Range(off, all));
    if Clear(sb, b0, lim) {
      SubsetSize(FreeBelow(sb, b0, lim), FreeBelow(sb, b0, sb.size));
    }
  }

  lemma {:induction false} RanThrough(sb: Super, b0: seq<Block>, T0: Inodes, own0: map<nat, Owner>, b1: seq<Block>,
                                      T1: Inodes, own1: map<nat, Owner>, i: nat, p: set<nat>, chunks: seq<Chunk>,
                                      lim: nat)
    requires Consistent(sb, b0, T0, own0) && Consistent(sb, b1, T1, own1) && AllOk(T0) && i < |T0|
    requires Books(sb, b0, T0, own0, b1, T1, own1, i, p, chunks)
    ensures !Lacks(sb, b0, T0, i, p)
    ensures Clear(sb, b0, lim) ==>
              && (ChunksBelow(chunks, lim) <==> Needed(b0, T0, i, p) <= |FreeBelow(sb, b0, lim)|)
              && (ChunksBelow(chunks, lim) ==> ChunksClear(sb, chunks, lim))
  {
    hide Consistent, InUse, Slots, Needed, DataStart, Charged, Took, Logs, ChunksBelow, ChunksClear, Lacks, FreeBelow;
    ChargedExactly(sb, b0, T0, own0, b1, T1, own1, true, i, p);
    if Clear(sb, b0, lim) {
      BooksBelow(sb, b0, T0, own0, b1, T1, own1, i, p, chunks, lim);
    }
  }

  /** c is c0 with done written over it at off; past the end of c0 nothing can be. */
  ghost predicate Sofar(c0: seq<Byte>, off: nat, done: seq<Byte>, c: seq<Byte>) {
    c == Spliced(c0, off, done) && if off > |c0| then done == [] else off + |done| <= |c|
  }

  lemma {:induction false} SofarIs(c0: seq<Byte>, off: nat, done: seq<Byte>, c: seq<Byte>)
    requires Sofar(c0, off, done, c)
    ensures c == Spliced(c0, off, done)
    ensures if off > |c0| then done == [] && |c| == |c0| else off + |done| <= |c|
  {
  }

  lemma {:induction false} SofarNone(c0: seq<Byte>, off: nat, addr: seq<Byte>)
    ensures Sofar(c0, off, addr[..0], c0)
  {
    if off <= |c0| {
      SpliceNothing(c0, off);
    }
  }

  lemma {:induction false} SofarMore(c0: seq<Byte>, off: nat, addr: seq<Byte>, i: nat, n: nat, c: seq<Byte>)
    requires i + n <= |addr| && Sofar(c0, off, addr[..i], c) && off + i <= |c| && off <= |c0|
    ensures Sofar(c0, off, addr[..i + n], Splice(c, off + i, addr[i..i + n]))
  {
    assert addr[..i + n] == addr[..i] + addr[i..i + n];
    SpliceTrans(c0, off, addr[..i], addr[i..i + n]);
    SpliceTrans(c0, off, addr[..i + n], []);
  }

  lemma {:induction false} NotTooLong(blocks: seq<Block>, T: Inodes, i: nat)
    requires AllOk(T) && i < |T| && NoHole(blocks, T, i)
    ensures T[i].size <= MAXFILE * BSIZE
  {
  }

  lemma {:induction false} AllAttempted(off: nat, size: nat, n: int, i: nat)
    requires i <= Max(n, 0) && (off > size ==> i == 0) && (off <= size ==> off + i <= MAXFILE * BSIZE)
    ensures off > size || i >= n ==> i == Attempted(off, size, n)
  {
  }

  lemma {:induction false} TookWider(lo: nat, own0: map<nat, Owner>, own1: map<nat, Owner>, l1: set<nat>, l2: set<nat>)
    requires Took(lo, own0, own1, l1) && l1 <= l2
    ensures Took(lo, own0, own1, l2)
  {
  }

  ghost predicate Chunked(sb: Super, b0: seq<Block>, T0: Inodes, i: nat, off: nat, addr: seq<Byte>, chunks: seq<Chunk>)
  {
    && AllOk(T0) && i < |T0|
    && forall j :: 0 <= j < |chunks| ==>
                     ChunkOk(sb, b0, T0, i, off, addr, chunks[j]) && chunks[j].before == j * CHUNK
                     && chunks[j].start == After(b0, chunks[..j])
  }

  lemma {:induction false} ChunkAdded(sb: Super, b0: seq<Block>, T0: Inodes, i: nat, off: nat, addr: seq<Byte>,
                                      chunks: seq<Chunk>, c: Chunk)
    requires Chunked(sb, b0, T0, i, off, addr, chunks) && ChunkOk(sb, b0, T0, i, off, addr, c)
    requires c.before == |chunks| * CHUNK && c.start == After(b0, chunks)
    ensures Chunked(sb, b0, T0, i, off, addr, chunks + [c]) && After(b0, chunks + [c]) == Replay(c.start, c.calls)
  {
    hide ChunkOk, Replay, After;
    var more := chunks + [c];
    forall j | 0 <= j < |more|
      ensures ChunkOk(sb, b0, T0, i, off, addr, more[j]) && more[j].before == j * CHUNK
              && more[j].start == After(b0, more[..j])
    {
      assert more[..j] == if j < |chunks| then chunks[..j] else chunks;
    }
    AfterLast(b0, chunks, c);
  }

  lemma {:induction false} NoChunks(sb: Super, b0: seq<Block>, T0: Inodes, i: nat, off: nat, addr: seq<Byte>)
    requires AllOk(T0) && i < |T0|
    ensures Chunked(sb, b0, T0, i, off, addr, []) && After(b0, []) == b0
  {
  }

  lemma {:induction false} AfterLast(b0: seq<Block>, chunks: seq<Chunk>, c: Chunk)
    ensures After(b0, chunks + [c]) == Replay(c.start, c.calls)
  {
    hide Replay;
  }

  /** With every inode on disk as in memory. */
  lemma {:induction false} IsUpTo(sb: Super, b0: seq<Block>, T0: Inodes, i: nat, off: nat, addr: seq<Byte>,
                                  b: seq<Block>, T: Inodes, own: map<nat, Owner>)
    requires Consistent(sb, b, T, own) && AllOk(T) && FilesKept(b0, T0, b, T, i) && i < |T|
    requires SyncedBut(sb, b, T, i) && Synced(sb, b, T, i) && NoHole(b, T, i)
    requires Content(b, T, i) == Spliced(Content(b0, T0, i), off, addr)
    ensures UpTo(sb, b0, T0, i, off, addr, b)
  {
    hide Owned, Bits, FileKept, NoHole, Content, Spliced, Ino;
    assert T == OnDisk(sb, b) by {
      forall j | 0 <= j < |T|
        ensures T[j] == OnDisk(sb, b)[j]
      {
        assert Synced(sb, b, T, j);
      }
    }
  }

  // ---- which blocks are taken ----

  /** Blocks are only added, each of them logged, and always the first free one: all below it, from lo
      on, are taken as well. */
  ghost predicate Took(lo: nat, own0: map<nat, Owner>, own1: map<nat, Owner>, logged: set<nat>) {
    own0.Keys <= own1.Keys && forall x :: x in own1 && x !in own0 ==> x in logged && TakenTo(lo, own1, x)
  }

  ghost predicate TakenTo(lo: nat, own: map<nat, Owner>, x: nat) {
    forall c: nat :: lo <= c < x ==> c in own
  }

  lemma {:induction false} TookNone(lo: nat, own: map<nat, Owner>, logged: set<nat>)
    ensures Took(lo, own, own, logged)
  {
  }

  lemma {:induction false} TookTrans(lo: nat, own0: map<nat, Owner>, own1: map<nat, Owner>, own2: map<nat, Owner>,
                                     l1: set<nat>, l2: set<nat>)
    requires Took(lo, own0, own1, l1) && Took(lo, own1, own2, l2) && l1 <= l2
    ensures Took(lo, own0, own2, l2)
  {
    forall x | x in own2 && x !in own0
      ensures x in l2 && TakenTo(lo, own2, x)
    {
      if x in own1 {
        assert TakenTo(lo, own1, x);
        assert forall c: nat :: lo <= c < x ==> c in own1 ==> c in own2;
      }
    }
  }

  /** balloc's choice. */
  lemma {:induction false} TookOne(sb: Super, blocks: seq<Block>, own: map<nat, Owner>, b: nat, o: Owner,
                                   logged: set<nat>)
    requires SuperOk(sb, blocks) && Bits(sb, blocks, own) && b < sb.size && b in logged
    requires forall c :: 0 <= c < b ==> InUse(sb, blocks, c)
    ensures Took(DataStart(sb), own, own[b := o], logged)
  {
    hide InUse, DataStart;
    forall c: nat | DataStart(sb) <= c < b
      ensures c in own
    {
      assert InUse(sb, blocks, c);
    }
  }

  class Inode {
    const inum: nat
    var d: Dinode

    constructor (i: nat, di: Dinode)
      ensures inum == i && d == di
    {
      inum, d := i, di;
    }
  }

  class Volume {
    const sb: Super
    var blocks: seq<Block>

    /** The inodes as the kernel sees them: a cached inode's memory copy, else the disk. */
    ghost var table: Inodes
    /** The pointer that owns each allocated block. */
    ghost var own: map<nat, Owner>
    /** The current transaction: the blocks it started from, its calls of log_write, and the sectors
        they named. */
    ghost var start: seq<Block>
    ghost var trans: seq<LogCall>
    ghost var logged: set<nat>

    ghost predicate Traced()
      reads this
    {
      blocks == Replay(start, trans) && logged == Named(trans) && HoldFew(trans)
    }

    ghost predicate Valid()
      reads this
    {
      Consistent(sb, blocks, table, own) && Traced()
    }

    /** ip is a cached inode, locked, and all other inodes are the same in memory and on disk. */
    ghost predicate Holds(ip: Inode)
      reads this, ip
    {
      Valid() && ip.inum < |table| && table[ip.inum] == ip.d && SyncedBut(sb, blocks, table, ip.inum)
    }

    constructor (s: Super, b: seq<Block>, ghost t: Inodes, ghost o: map<nat, Owner>)
      requires Consistent(s, b, t, o)
      ensures Valid() && sb == s && blocks == b && table == t && own == o && logged == {}
    {
      sb, blocks, table, own := s, b, t, o;
      start, trans, logged := b, [], {};
    }

    /** The effect of log_write on the map, and on the list of logged sectors. */
    method LogWrite(x: nat, nb: Block, ghost held: nat)
      requires x < |blocks| && Traced() && held <= 2
      modifies this`blocks, this`logged, this`trans
      ensures Traced() && blocks == old(blocks)[x := nb] && trans == old(trans) + [LogCall(x, nb, held)]
              && logged == old(logged) + {x}
    {
      ReplayMore(start, trans, LogCall(x, nb, held));
      blocks := blocks[x := nb];
      trans := trans + [LogCall(x, nb, held)];
      logged := logged + {x};
    }

    /** balloc (fs.c:51-78): the first free block, marked and zeroed. */
    method Balloc(ghost held: nat) returns (stop: Panic, b: nat)
      requires SuperOk(sb, blocks) && Traced() && held <= 1
      modifies this`blocks, this`logged, this`trans
      ensures stop == Fine || stop == OutOfBlocks
      ensures stop == OutOfBlocks <==> forall c :: 0 <= c < sb.size ==> InUse(sb, old(blocks), c)
      ensures stop == OutOfBlocks ==> blocks == old(blocks) && logged == old(logged) && trans == old(trans)
      ensures stop == Fine ==>
                && b < sb.size && !InUse(sb, old(blocks), b) && (forall c :: 0 <= c < b ==> InUse(sb, old(blocks), c))
                && blocks == Allocated(sb, old(blocks), b) && logged == old(logged) + {BBlock(sb, b), b} && Traced()
    {
      b := FindFree();
      if b == sb.size {
        return OutOfBlocks, b;
      }
      BInRange(sb, b);
      ghost var before := blocks;
      var bits := blocks[BBlock(sb, b)];
      hide BlockBit, SetBlockBit;
      LogWrite(BBlock(sb, b), SetBlockBit(bits, b % BPB), held + 1);
      LogWrite(b, ZeroBlock(), held + 1);
      assert MarkedBlock(sb, before, b, true) == SetBlockBit(bits, b % BPB);
      assert blocks == Allocated(sb, before, b);
      return Fine, b;
    }

    /** The two loops of balloc (fs.c:59-75), over the bitmap blocks and the bits in each. */
    method FindFree() returns (b: nat)
      requires SuperOk(sb, blocks)
      ensures b <= sb.size && (b < sb.size ==> !InUse(sb, blocks, b))
      ensures forall c :: 0 <= c < b ==> InUse(sb, blocks, c)
    {
      hide BlockBit;
      var base: nat := 0;
      while base < sb.size
        invariant base % BPB == 0
        invariant forall c :: 0 <= c < base && c < sb.size ==> InUse(sb, blocks, c)
      {
        BInRange(sb, base);
        var bits := blocks[BBlock(sb, base)];
        var bi: nat := 0;
        while bi < BPB && base + bi < sb.size
          invariant bi <= BPB
          invariant forall c :: 0 <= c < base + bi && c < sb.size ==> InUse(sb, blocks, c)
        {
          assert (base + bi) % BPB == bi && BBlock(sb, base + bi) == BBlock(sb, base);
          if !BlockBit(bits, bi) {
            return base + bi;
          }
          assert InUse(sb, blocks, base + bi);
          bi := bi + 1;
        }
        base := base + BPB;
      }
      return sb.size;
    }

    /** bfree (fs.c:82-99). */
    method Bfree(b: nat, ghost held: nat) returns (stop: Panic)
      requires SuperOk(sb, blocks) && Traced() && b < sb.size && held <= 1
      modifies this`blocks, this`logged, this`trans
      ensures stop == Fine || stop == FreeingFreeBlock
      ensures stop == FreeingFreeBlock <==> !InUse(sb, old(blocks), b)
      ensures stop == Fine ==>
                blocks == Released(sb, old(blocks), b) && logged == old(logged) + {BBlock(sb, b)} && Traced()
    {
      BInRange(sb, b);
      var bits := blocks[BBlock(sb, b)];
      if !BlockBit(bits, b % BPB) {
        return FreeingFreeBlock;
      }
      LogWrite(BBlock(sb, b), ClearBlockBit(bits, b % BPB), held + 1);
      return Fine;
    }

    /** ip->addrs[s] = balloc(dev) (fs.c:376, fs.c:387). */
    method AllocAddr(ip: Inode, s: nat) returns (stop: Panic, b: nat)
      requires Holds(ip) && s <= NDIRECT && ip.d.addrs[s] == 0
      modifies this, ip
      ensures start == old(start) && Holds(ip) && Took(DataStart(sb), old(own), own, logged) && old(logged) <= logged
      ensures stop == OutOfBlocks ==> forall c :: 0 <= c < sb.size ==> InUse(sb, blocks, c)
      ensures stop == OutOfBlocks ==>
                blocks == old(blocks) && table == old(table) && ip.d == old(ip.d) && logged == old(logged)
      ensures stop == Fine || stop == OutOfBlocks
      ensures stop == Fine ==>
                && 0 < b < sb.size && ip.d == WithAddr(old(ip.d), s, b) && table == old(table)[ip.inum := ip.d]
                && Grown(old(blocks), old(table), blocks, table)
                && Ino(sb, blocks, ip.inum) == Ino(sb, old(blocks), ip.inum)
                && logged == old(logged) + {BBlock(sb, b), b}
      ensures Charged(stop == Fine, old(blocks), old(table), old(own), blocks, table, own, ip.inum, {s})
    {
      hide InUse, Ino, Owned, Bits, Grown, Allocated, Took, Replay, Named, HoldFew, Charged;
      ghost var before := blocks;
      TableOk(sb, blocks, table, own);
      TookNone(DataStart(sb), own, logged);
      stop, b := Balloc(0);
      if stop != Fine {
        ChargedFails(blocks, table, own, ip.inum, s);
        return;
      }
      AddrCharged(sb, before, table, own, ip.inum, s, b);
      TookOne(sb, before, own, b, (ip.inum, s), logged);
      AddrAllocated(sb, before, table, own, ip.inum, s, b);
      ip.d := WithAddr(ip.d, s, b);
      table := table[ip.inum := ip.d];
      own := own[b := (ip.inum, s)];
    }

    /** a[j] = balloc(dev); log_write(bp) (fs.c:390-396). */
    method AllocEntry(ip: Inode, j: nat) returns (stop: Panic, b: nat)
      requires Holds(ip) && j < NINDIRECT && 0 < Indirect(ip.d) < |blocks| && Word(blocks[Indirect(ip.d)], j) == 0
      modifies this
      ensures start == old(start) && Holds(ip) && Took(DataStart(sb), old(own), own, logged) && old(logged) <= logged
              && table == old(table)
      ensures stop == OutOfBlocks ==> forall c :: 0 <= c < sb.size ==> InUse(sb, blocks, c)
      ensures stop == OutOfBlocks ==> blocks == old(blocks) && logged == old(logged)
      ensures stop == Fine || stop == OutOfBlocks
      ensures stop == Fine ==>
                && b < sb.size && EntryGiven(sb, old(blocks), blocks, table, ip.inum, j, b)
                && logged == old(logged) + {BBlock(sb, b), b, Indirect(ip.d)}
      ensures Charged(stop == Fine, old(blocks), table, old(own), blocks, table, own, ip.inum, {NDIRECT + 1 + j})
    {
      hide InUse, EntryGiven, Consistent, SyncedBut, EntryBlocks, Word, Replay, Named, HoldFew, BBlock, AllOk, Took,
           Bits, Charged, Slots;
      ghost var before := blocks;
      EntryNotYet(sb, blocks, table, own, ip.inum, j);
      TookNone(DataStart(sb), own, logged);
      stop, b := PutEntry(Indirect(ip.d), j);
      if stop != Fine {
        ChargedFails(blocks, table, own, ip.inum, NDIRECT + 1 + j);
        return;
      }
      EntryCharged(sb, before, table, own, ip.inum, j, b);
      TookOne(sb, before, own, b, (ip.inum, NDIRECT + 1 + j), logged);
      EntryAllocated(sb, before, table, own, ip.inum, j, b);
      own := own[b := (ip.inum, NDIRECT + 1 + j)];
    }

    /** The sector writes of AllocEntry, for the indirect block x. */
    method PutEntry(x: nat, j: nat) returns (stop: Panic, b: nat)
      requires SuperOk(sb, blocks) && Traced() && x < |blocks| && j < NINDIRECT
      modifies this`blocks, this`logged, this`trans
      ensures stop == OutOfBlocks ==> blocks == old(blocks) && logged == old(logged) && trans == old(trans)
      ensures stop == OutOfBlocks ==> forall c :: 0 <= c < sb.size ==> InUse(sb, blocks, c)
      ensures stop == Fine || stop == OutOfBlocks
      ensures stop == Fine ==>
                && b < sb.size && !InUse(sb, old(blocks), b) && (forall c :: 0 <= c < b ==> InUse(sb, old(blocks), c))
                && blocks == EntryBlocks(sb, old(blocks), x, j, b) && Traced()
                && logged == old(logged) + {BBlock(sb, b), b, x}
    {
      hide InUse, Allocated, PutWords, Replay, Named, HoldFew, BBlock;
      var bp := blocks[x];
      stop, b := Balloc(1);
      if stop == Fine {
        LogWrite(x, PutWords(bp, j, [b]), 1);
      }
    }

    /** bmap (fs.c:370-403). */
    method Bmap(ip: Inode, bn: nat) returns (stop: Panic, addr: nat)
      requires Holds(ip)
      modifies this, ip
      ensures start == old(start) && Holds(ip) && Took(DataStart(sb), old(own), own, logged) && old(logged) <= logged
      ensures IndirectStays(old(ip.d), ip.d)
              && (stop != Fine ==> logged <= old(logged) + BitmapSectors(sb) + IndirectSet(ip.d))
      ensures stop == OutOfRange <==> bn >= MAXFILE
      ensures stop == OutOfBlocks ==> forall c :: 0 <= c < sb.size ==> InUse(sb, blocks, c)
      ensures stop == Fine || stop == OutOfBlocks || stop == OutOfRange
      ensures stop == Fine ==>
                && table == old(table)[ip.inum := ip.d] && ip.d == old(ip.d).(addrs := ip.d.addrs)
                && addr == BlockFor(blocks, table, ip.inum, bn) && 0 < addr < sb.size
                && Grown(old(blocks), old(table), blocks, table)
                && Ino(sb, blocks, ip.inum) == Ino(sb, old(blocks), ip.inum)
                && logged <= old(logged) + BitmapSectors(sb) + IndirectSet(ip.d) + {addr}
      ensures bn < MAXFILE && old(BlockFor(blocks, table, ip.inum, bn)) != 0 ==>
                stop == Fine && blocks == old(blocks) && table == old(table) && ip.d == old(ip.d)
                && logged == old(logged) && trans == old(trans)
      ensures bn < MAXFILE ==>
                Charged(stop == Fine, old(blocks), old(table), old(own), blocks, table, own, ip.inum, Path(bn, bn + 1))
      ensures bn < MAXFILE ==>
                (stop == OutOfBlocks <==> Lacks(sb, old(blocks), old(table), ip.inum, Path(bn, bn + 1)))
    {
      hide InUse, Ino, Owned, Bits, Grown, Word, BitmapSectors, Replay, Named, HoldFew, Took, Charged, Lacks, Path;
      TableOk(sb, blocks, table, own);
      GrownSelf(blocks, table);
      TookNone(DataStart(sb), own, logged);
      if bn >= MAXFILE {
        return OutOfRange, 0;
      }
      PathOne(bn);
      ghost var b0, T0, own0 := blocks, table, own;
      if bn < NDIRECT {
        addr := ip.d.addrs[bn];
        if addr == 0 {
          stop, addr := AllocAddr(ip, bn);
          InBitmap(sb, addr);
          ChargedExactly(sb, b0, T0, own0, blocks, table, own, stop == Fine, ip.inum, {bn});
          return;
        }
        MappedOwned(blocks, table, own, DataStart(sb), sb.size, ip.inum, bn);
        PathFound(blocks, table, ip.inum, bn);
        ChargedNone(blocks, table, own, ip.inum, {bn});
        ChargedExactly(sb, b0, T0, own0, blocks, table, own, true, ip.inum, {bn});
        return Fine, addr;
      }
      stop, addr := BmapIndirect(ip, bn - NDIRECT);
      ChargedExactly(sb, b0, T0, own0, blocks, table, own, stop == Fine, ip.inum, {NDIRECT, bn + 1});
    }

    /** The second half of bmap, with bn reduced by NDIRECT (fs.c:384-399). */
    method BmapIndirect(ip: Inode, j: nat) returns (stop: Panic, addr: nat)
      requires Holds(ip) && j < NINDIRECT
      modifies this, ip
      ensures start == old(start) && Holds(ip) && Took(DataStart(sb), old(own), own, logged) && old(logged) <= logged
      ensures IndirectStays(old(ip.d), ip.d)
              && (stop != Fine ==> logged <= old(logged) + BitmapSectors(sb) + IndirectSet(ip.d))
      ensures stop == OutOfBlocks ==> forall c :: 0 <= c < sb.size ==> InUse(sb, blocks, c)
      ensures stop == Fine || stop == OutOfBlocks
      ensures stop == Fine ==>
                && table == old(table)[ip.inum := ip.d] && ip.d == old(ip.d).(addrs := ip.d.addrs)
                && addr == BlockFor(blocks, table, ip.inum, NDIRECT + j) && 0 < addr < sb.size
                && Grown(old(blocks), old(table), blocks, table)
                && Ino(sb, blocks, ip.inum) == Ino(sb, old(blocks), ip.inum)
                && logged <= old(logged) + BitmapSectors(sb) + IndirectSet(ip.d) + {addr}
      ensures old(BlockFor(blocks, table, ip.inum, NDIRECT + j)) != 0 ==>
                stop == Fine && blocks == old(blocks) && table == old(table) && ip.d == old(ip.d)
                && logged == old(logged) && trans == old(trans)
      ensures Charged(stop == Fine, old(blocks), old(table), old(own), blocks, table, own, ip.inum,
                      {NDIRECT, NDIRECT + 1 + j})
    {
      hide InUse, Ino, Owned, Bits, Grown, Word, BitmapSectors, AllOk, Replay, Named, HoldFew, Took, Charged, Slots;
      var x;
      addr := 0;
      stop, x := LoadIndirect(ip);
      ghost var way: set<nat> := {NDIRECT, NDIRECT + 1 + j};
      assert {NDIRECT} + {NDIRECT + 1 + j} == way;
      if stop != Fine {
        ChargedMore(old(blocks), old(table), old(own), blocks, table, own, ip.inum, {NDIRECT}, way);
        return;
      }
      ghost var blocks1, table1, own1, logged1 := blocks, table, own, logged;
      addr := Word(blocks[x], j);
      if addr == 0 {
        stop, addr := AllocEntry(ip, j);
        ChargedTrans(stop == Fine, old(blocks), old(table), old(own), blocks1, table1, own1, blocks, table, own,
                     ip.inum,
                     {NDIRECT}, {NDIRECT + 1 + j});
        TookTrans(DataStart(sb), old(own), own1, own, logged1, logged);
        if stop == Fine {
          InBitmap(sb, addr);
          TableOk(sb, blocks, table, own);
          GrownTrans(old(blocks), old(table), blocks1, table1, blocks, table);
        }
        return;
      }
      MappedOwned(blocks, table, own, DataStart(sb), sb.size, ip.inum, NDIRECT + j);
      EntryFound(blocks, table, own, ip.inum, j);
      ChargedTrans(true, old(blocks), old(table), old(own), blocks1, table1, own1, blocks, table, own, ip.inum,
                   {NDIRECT},
                   {NDIRECT + 1 + j});
    }

    /** The indirect block, allocated if necessary (fs.c:386-388). */
    method LoadIndirect(ip: Inode) returns (stop: Panic, x: nat)
      requires Holds(ip)
      modifies this, ip
      ensures start == old(start) && Holds(ip) && Took(DataStart(sb), old(own), own, logged) && old(logged) <= logged
      ensures IndirectStays(old(ip.d), ip.d)
              && (stop != Fine ==> logged <= old(logged) + BitmapSectors(sb) + IndirectSet(ip.d))
      ensures stop == OutOfBlocks ==> forall c :: 0 <= c < sb.size ==> InUse(sb, blocks, c)
      ensures stop == Fine || stop == OutOfBlocks
      ensures stop == Fine ==>
                && AllOk(old(table)) && AllOk(table)
                && table == old(table)[ip.inum := ip.d] && ip.d == old(ip.d).(addrs := ip.d.addrs)
                && x == Indirect(ip.d) && 0 < x < sb.size
                && Grown(old(blocks), old(table), blocks, table)
                && Ino(sb, blocks, ip.inum) == Ino(sb, old(blocks), ip.inum)
                && logged <= old(logged) + BitmapSectors(sb) + {x}
      ensures old(Indirect(ip.d)) != 0 ==>
                stop == Fine && blocks == old(blocks) && table == old(table) && ip.d == old(ip.d)
                && logged == old(logged) && trans == old(trans)
      ensures Charged(stop == Fine, old(blocks), old(table), old(own), blocks, table, own, ip.inum, {NDIRECT})
    {
      hide InUse, Ino, Owned, Bits, Grown, BitmapSectors, Replay, Named, HoldFew, Took, Charged;
      TableOk(sb, blocks, table, own);
      GrownSelf(blocks, table);
      MappedIndirect(sb, blocks, table, own, ip.inum);
      TookNone(DataStart(sb), own, logged);
      x := Indirect(ip.d);
      stop := Fine;
      if x == 0 {
        stop, x := AllocAddr(ip, NDIRECT);
        InBitmap(sb, x);
      } else {
        assert NDIRECT in Slots(blocks, table, ip.inum);
        ChargedNone(blocks, table, own, ip.inum, {NDIRECT});
      }
    }

    /** iupdate (fs.c:207-221). */
    method Iupdate(ip: Inode)
      requires Holds(ip)
      modifies this`blocks, this`logged, this`trans
      ensures Holds(ip) && Synced(sb, blocks, table, ip.inum) && Grown(old(blocks), table, blocks, table)
      ensures logged == old(logged) + {IBlock(ip.inum)}
      ensures AllOk(table) && Slots(blocks, table, ip.inum) == Slots(old(blocks), table, ip.inum)
    {
      TableOk(sb, blocks, table, own);
      InodeWritten(sb, blocks, table, own, ip.inum);
      InodeKeepsSlots(sb, blocks, table, own, ip.inum, InodeBlock(sb, blocks, ip.inum, ip.d));
      hide Ino, Owned, Bits, Grown, InodeBlock, Slots;
      LogWrite(IBlock(ip.inum), InodeBlock(sb, blocks, ip.inum, ip.d), 1);
    }

    /** One turn of writei's loop (fs.c:509-513): the part of the source that goes into one block. */
    method WriteBlock(ip: Inode, off: nat, piece: seq<Byte>) returns (stop: Panic)
      requires Holds(ip) && piece != [] && off % BSIZE + |piece| <= BSIZE && off + |piece| <= MAXFILE * BSIZE
      modifies this, ip
      ensures start == old(start) && Holds(ip) && Took(DataStart(sb), old(own), own, logged) && old(logged) <= logged
      ensures IndirectStays(old(ip.d), ip.d)
              && (stop != Fine ==> logged <= old(logged) + BitmapSectors(sb) + IndirectSet(ip.d))
      ensures stop == Fine || stop == OutOfBlocks
      ensures stop == OutOfBlocks ==> forall c :: 0 <= c < sb.size ==> InUse(sb, blocks, c)
      ensures stop == Fine ==>
                && AllOk(old(table)) && AllOk(table)
                && table == old(table)[ip.inum := ip.d] && ip.d == old(ip.d).(addrs := ip.d.addrs)
                && Written(old(blocks), old(table), blocks, table, ip.inum, off, piece)
                && Ino(sb, blocks, ip.inum) == Ino(sb, old(blocks), ip.inum)
                && (Mapped(old(blocks), old(table), ip.inum, off) ==> ip.d == old(ip.d))
                && logged <= old(logged) + BitmapSectors(sb) + IndirectSet(ip.d) + {BlockFor(blocks, table, ip.inum,
                    off / BSIZE)}
      ensures Charged(stop == Fine, old(blocks), old(table), old(own), blocks, table, own, ip.inum, Range(off, |piece|))
    {
      hide InUse, Ino, Owned, Bits, Grown, BitmapSectors, IndirectSet, BlockFor, Written, Patch, Replay, Named,
           HoldFew, Took, Charged, Slots, Path, Range, Lacks;
      TableOk(sb, blocks, table, own);
      RangeBlock(off, |piece|);
      var x;
      stop, x := Bmap(ip, off / BSIZE);
      if stop != Fine {
        return;
      }
      TableOk(sb, blocks, table, own);
      WrittenBlock(old(blocks), old(table), blocks, table, own, DataStart(sb), sb.size, ip.inum, off, piece);
      BlockStep(sb, blocks, table, own, ip.inum, off, piece);
      TookNone(DataStart(sb), own, logged + {x});
      ghost var blocks1, own1, logged1 := blocks, own, logged;
      DataKeepsSlots(sb, blocks, table, own, ip.inum, off / BSIZE, Patch(blocks[x], off % BSIZE, piece));
      LogWrite(x, Patch(blocks[x], off % BSIZE, piece), 1);
      TookTrans(DataStart(sb), old(own), own1, own, logged1, logged);
      ChargedKept(old(blocks), old(table), old(own), blocks1, table, blocks, table, own, ip.inum, Range(off, |piece|));
    }

    /** writei (fs.c:488-522) on a file that is not a device. */
    method Writei(ip: Inode, src: seq<Byte>, off: U32) returns (stop: Panic, r: int, ghost touched: set<nat>)
      requires Holds(ip) && Synced(sb, blocks, table, ip.inum) && AllOk(table) && NoHole(blocks, table, ip.inum)
      requires ip.d.typ != T_DEV && |src| < W32
      modifies this, ip
      ensures start == old(start) && Holds(ip) && Took(DataStart(sb), old(own), own, logged)
      ensures logged <= old(logged) + BitmapSectors(sb) + touched + {IBlock(ip.inum)} && TouchedOk(own, touched, |src|)
      ensures stop == Fine || stop == OutOfBlocks
      ensures stop == OutOfBlocks ==> forall c :: 0 <= c < sb.size ==> InUse(sb, blocks, c)
      ensures stop == Fine ==>
                && Synced(sb, blocks, table, ip.inum) && AllOk(table) && NoHole(blocks, table, ip.inum)
                && ip.d.typ == old(ip.d.typ)
      ensures stop == Fine ==> (r == -1 <==> off > old(ip.d.size) || off + |src| > MAXFILE * BSIZE)
      ensures stop == Fine && r == -1 ==>
                blocks == old(blocks) && table == old(table) && ip.d == old(ip.d) && logged == old(logged)
      ensures stop == Fine && r != -1 ==>
                && r == |src| && AllOk(table) && off <= |old(Content(blocks, table, ip.inum))|
                && Content(blocks, table, ip.inum) == Splice(old(Content(blocks, table, ip.inum)), off, src)
                && FilesKept(old(blocks), old(table), blocks, table, ip.inum)
                && off + |src| <= MAXFILE * BSIZE
      ensures Charged(stop == Fine, old(blocks), old(table), old(own), blocks, table, own, ip.inum,
                      if stop == Fine && r == -1 then {} else Range(off, |src|))
      ensures stop == OutOfBlocks <==>
                && off <= old(ip.d.size) && off + |src| <= MAXFILE * BSIZE
                && Lacks(sb, old(blocks), old(table), ip.inum, Range(off, |src|))
    {
      hide InUse, Ino, Owned, Bits, Written, NoHole, Content, Splice, Took, BitmapSectors, TouchedOk, Replay, Named,
           HoldFew, Wrap32, Charged, Range, Slots, Lacks;
      ghost var b0, T0, own0 := blocks, table, own;
      ChargedNone(blocks, table, own, ip.inum, {});
      var n := |src|;
      CannotWrap(off, n);
      r := -1;
      stop := Fine;
      touched := {};
      TookNone(DataStart(sb), own, logged);
      NothingTouched(own, |src|);
      if off > ip.d.size || Wrap32(off + n) < off {
        return;
      }
      if Wrap32(off + n) > MAXFILE * BSIZE {
        return;
      }
      stop, touched := WriteAll(ip, src, off);
      ChargedExactly(sb, b0, T0, own0, blocks, table, own, stop == Fine, ip.inum, Range(off, n));
      if stop != Fine {
        return;
      }
      r := n;
      if n > 0 && off + n > ip.d.size {
        ghost var blocks1, table1, own1, logged1 := blocks, table, own, logged;
        SetSize(ip, off + n, old(blocks), old(table), off, src);
        ChargedKept(b0, T0, own0, blocks1, table1, blocks, table, own, ip.inum, Range(off, n));
        TookNone(DataStart(sb), own, logged);
        TookTrans(DataStart(sb), old(own), own1, own, logged1, logged);
      }
      WriteDone(old(blocks), old(table), blocks, table, ip.inum, off, src);
    }

    /** readi (fs.c:455-483) on a file that is not a device: the clipped slice, and nothing changes. */
    method Readi(ip: Inode, off: U32, n: U32) returns (r: int, dst: seq<Byte>)
      requires Holds(ip) && AllOk(table) && NoHole(blocks, table, ip.inum) && ip.d.typ != T_DEV
      modifies this, ip
      ensures blocks == old(blocks) && table == old(table) && ip.d == old(ip.d) && logged == old(logged)
              && trans == old(trans) && Holds(ip)
      ensures r == -1 <==> off > ip.d.size || off + n >= W32
      ensures r != -1 ==>
                var c := old(Content(blocks, table, ip.inum));
                off <= |c| && dst == c[off..Min(off + n, |c|)] && r == |dst|
    {
      hide Consistent, SyncedBut, NoHole, Content, Wrap32, AllOk, Replay, Named, HoldFew;
      dst := [];
      CannotWrap(off, n);
      ghost var content := Content(blocks, table, ip.inum);
      if off > ip.d.size || Wrap32(off + n) < off {
        return -1, dst;
      }
      var left := n;
      if Wrap32(off + n) > ip.d.size {
        left := ip.d.size - off;
      }
      var tot := 0;
      while tot < left
        invariant 0 <= tot <= left && dst == content[off..off + tot]
        invariant blocks == old(blocks) && table == old(table) && ip.d == old(ip.d) && logged == old(logged)
                  && trans == old(trans) && Holds(ip)
      {
        var m := Min(left - tot, BSIZE - (off + tot) % BSIZE);
        assert 0 < m && (off + tot) % BSIZE + m <= BSIZE && off + tot + m <= ip.d.size;
        var piece := ReadBlock(ip, off + tot, m);
        SliceAppend(content, off, off + tot, off + tot + m);
        dst := dst + piece;
        tot := tot + m;
      }
      r := left;
    }

    /** One turn of readi's loop (fs.c:476-479): bytes that lie in one block. */
    method ReadBlock(ip: Inode, at: nat, m: nat) returns (piece: seq<Byte>)
      requires Holds(ip) && AllOk(table) && NoHole(blocks, table, ip.inum)
      requires 0 < m && at % BSIZE + m <= BSIZE && at + m <= ip.d.size
      modifies this, ip
      ensures blocks == old(blocks) && table == old(table) && ip.d == old(ip.d) && logged == old(logged)
              && trans == old(trans) && Holds(ip)
      ensures piece == Content(blocks, table, ip.inum)[at..at + m]
    {
      assert Mapped(blocks, table, ip.inum, at);
      hide InUse, Ino, Owned, Bits, Grown, BlockFor, NoHole, Content;
      SliceOfBlock(blocks, table, ip.inum, at, m);
      var stop, x := Bmap(ip, at / BSIZE);
      piece := blocks[x][at % BSIZE..at % BSIZE + m];
    }

    /** bfree(ip->addrs[s]); ip->addrs[s] = 0 (fs.c:418-419). */
    method DropAddr(ip: Inode, s: nat)
      requires Holds(ip) && AllOk(table) && s < NDIRECT && ip.d.addrs[s] != 0
      modifies this, ip
      ensures Holds(ip) && AllOk(table) && ip.d == WithAddr(old(ip.d), s, 0) && table == old(table)[ip.inum := ip.d]
      ensures OthersSame(old(blocks), old(table), blocks, table, ip.inum)
    {
      hide InUse, Ino, Owned, Bits, OthersSame, Released;
      var b := ip.d.addrs[s];
      AddrReleased(sb, blocks, table, own, ip.inum, s);
      var stop := Bfree(b, 0);
      assert stop == Fine;
      ip.d := WithAddr(ip.d, s, 0);
      table := table[ip.inum := ip.d];
      own := own - {b};
    }

    ghost predicate Drains(ip: Inode, skip: nat)
      reads this, ip
    {
      && Draining(sb, blocks, table, own, ip.inum, skip) && Traced()
      && ip.inum < |table| && table[ip.inum] == ip.d && SyncedBut(sb, blocks, table, ip.inum) && AllOk(table)
    }

    /** if(a[j]) bfree(a[j]) (fs.c:428-430); the entry itself stays in the indirect block. */
    method DropEntry(ip: Inode, a: Block, j: nat)
      requires Drains(ip, j) && j < NINDIRECT && 0 < Indirect(ip.d) < |blocks| && blocks[Indirect(ip.d)] == a
      modifies this
      ensures Drains(ip, j + 1) && table == old(table) && |blocks| == |old(blocks)| && blocks[Indirect(ip.d)] == a
      ensures OthersSame(old(blocks), old(table), blocks, table, ip.inum)
    {
      hide InUse, Ino, Owned, Bits, OthersSame, Released, Ref, Word, Draining;
      DrainFacts(sb, blocks, table, own, ip.inum, j);
      EntryDropped(sb, blocks, table, own, ip.inum, j);
      var b := Word(a, j);
      if b == 0 {
        return;
      }
      var stop := Bfree(b, 1);
      assert stop == Fine;
      own := own - {b};
    }

    /** The loop over the indirect block, and the block itself (fs.c:423-436). */
    method DropIndirect(ip: Inode)
      requires Holds(ip) && AllOk(table) && Indirect(ip.d) != 0
      modifies this, ip
      ensures Holds(ip) && AllOk(table) && ip.d == WithAddr(old(ip.d), NDIRECT, 0)
              && table == old(table)[ip.inum := ip.d]
      ensures OthersSame(old(blocks), old(table), blocks, table, ip.inum)
    {
      var x := Indirect(ip.d);
      DrainStart(sb, blocks, table, own, ip.inum);
      MappedIndirect(sb, blocks, table, own, ip.inum);
      GrownSelf(blocks, table);
      GrownOthers(blocks, table, blocks, table, ip.inum);
      hide InUse, Ino, Owned, Bits, OthersSame, Released, Draining, Grown;
      var a := blocks[x];
      var j := 0;
      while j < NINDIRECT
        invariant 0 <= j <= NINDIRECT && Drains(ip, j) && table == old(table) && ip.d == old(ip.d)
        invariant x < |blocks| && blocks[x] == a
        invariant OthersSame(old(blocks), old(table), blocks, table, ip.inum)
      {
        ghost var blocks1 := blocks;
        DropEntry(ip, a, j);
        OthersTrans(old(blocks), old(table), blocks1, table, blocks, table, ip.inum);
        j := j + 1;
      }
      ghost var blocks1, table1 := blocks, table;
      DropDrained(ip);
      OthersTrans(old(blocks), old(table), blocks1, table1, blocks, table, ip.inum);
    }

    /** bfree(ip->addrs[NDIRECT]); ip->addrs[NDIRECT] = 0 (fs.c:434-435). */
    method DropDrained(ip: Inode)
      requires Drains(ip, NINDIRECT) && 0 < Indirect(ip.d) < sb.size
      modifies this, ip
      ensures Holds(ip) && AllOk(table) && ip.d == WithAddr(old(ip.d), NDIRECT, 0)
              && table == old(table)[ip.inum := ip.d]
      ensures OthersSame(old(blocks), old(table), blocks, table, ip.inum)
    {
      hide InUse, Ino, Owned, Bits, OthersSame, Released, Draining;
      var x := Indirect(ip.d);
      DrainFacts(sb, blocks, table, own, ip.inum, NINDIRECT);
      IndirectReleased(sb, blocks, table, own, ip.inum);
      var stop := Bfree(x, 0);
      assert stop == Fine;
      ip.d := WithAddr(ip.d, NDIRECT, 0);
      table := table[ip.inum := ip.d];
      own := own - {x};
    }

    /** itrunc (fs.c:411-440). bfree never finds a block free, the inode loses all its blocks, and no
        other file changes. */
    method Itrunc(ip: Inode)
      requires Holds(ip) && AllOk(table)
      modifies this, ip
      ensures Holds(ip) && AllOk(table) && Synced(sb, blocks, table, ip.inum)
      ensures ip.d == old(ip.d).(size := 0, addrs := ip.d.addrs) && forall s :: 0 <= s <= NDIRECT ==> ip.d.addrs[s] == 0
      ensures forall x :: x in own ==> own[x].0 != ip.inum
      ensures FilesKept(old(blocks), old(table), blocks, table, ip.inum) && Content(blocks, table, ip.inum) == []
    {
      hide InUse, Ino, Owned, Bits, OthersSame, Grown, NoHole, Content, Replay, Named, HoldFew, Slots, FilesKept;
      GrownSelf(blocks, table);
      GrownOthers(blocks, table, blocks, table, ip.inum);
      var i := 0;
      while i < NDIRECT
        invariant 0 <= i <= NDIRECT && Holds(ip) && AllOk(table) && table == old(table)[ip.inum := ip.d]
        invariant ip.d == old(ip.d).(addrs := ip.d.addrs) && forall s :: 0 <= s < i ==> ip.d.addrs[s] == 0
        invariant OthersSame(old(blocks), old(table), blocks, table, ip.inum)
      {
        if ip.d.addrs[i] != 0 {
          ghost var blocks1, table1 := blocks, table;
          DropAddr(ip, i);
          OthersTrans(old(blocks), old(table), blocks1, table1, blocks, table, ip.inum);
        }
        i := i + 1;
      }
      if ip.d.addrs[NDIRECT] != 0 {
        ghost var blocks1, table1 := blocks, table;
        DropIndirect(ip);
        OthersTrans(old(blocks), old(table), blocks1, table1, blocks, table, ip.inum);
      }
      ghost var blocks2, table2 := blocks, table;
      ZeroSize(sb, blocks, table, own, ip.inum);
      ip.d := ip.d.(size := 0);
      table := table[ip.inum := ip.d];
      OthersTrans(old(blocks), old(table), blocks2, table2, blocks, table, ip.inum);
      ghost var blocks3, table3 := blocks, table;
      Iupdate(ip);
      GrownOthers(blocks3, table3, blocks, table, ip.inum);
      OthersTrans(old(blocks), old(table), blocks3, table3, blocks, table, ip.inum);
      TruncDone(sb, old(blocks), old(table), blocks, table, own, ip.inum);
    }

    /** The reading half of ilock (fs.c:292-307): the inode comes into memory as it is on disk. */
    method LoadInode(ip: Inode) returns (typed: bool)
      requires Valid() && ip.inum < sb.ninodes && forall j :: 0 <= j < |table| ==> Synced(sb, blocks, table, j)
      modifies ip
      ensures Holds(ip) && ip.d == Ino(sb, blocks, ip.inum) && (typed <==> ip.d.typ != 0)
    {
      IInRange(sb, ip.inum);
      assert Synced(sb, blocks, table, ip.inum);
      ip.d := DinodeAt(blocks[IBlock(ip.inum)], ip.inum % IPB);
      typed := ip.d.typ != 0;
    }

    /** The part of iput that frees an inode without links (fs.c:340-342). */
    method FreeInode(ip: Inode)
      requires Holds(ip) && AllOk(table)
      modifies this, ip
      ensures Holds(ip) && AllOk(table) && Synced(sb, blocks, table, ip.inum)
      ensures ip.d.typ == 0 && ip.d.size == 0 && forall s :: 0 <= s <= NDIRECT ==> ip.d.addrs[s] == 0
      ensures forall x :: x in own ==> own[x].0 != ip.inum
      ensures FilesKept(old(blocks), old(table), blocks, table, ip.inum)
    {
      Itrunc(ip);
      hide InUse, Ino, Owned, Bits, Grown, NoHole, Content;
      ghost var blocks1, table1 := blocks, table;
      TypeCleared(sb, blocks, table, own, ip.inum);
      ip.d := ip.d.(typ := 0);
      table := table[ip.inum := ip.d];
      ghost var blocks2, table2 := blocks, table;
      Iupdate(ip);
      GrownTrans(blocks1, table1, blocks2, table2, blocks, table);
      forall f | 0 <= f < |table| && f != ip.inum && NoHole(blocks1, table1, f)
        ensures FileKept(blocks1, table1, blocks, table, f)
      {
        GrownOthers(blocks1, table1, blocks, table, ip.inum);
        OthersContent(blocks1, table1, blocks, table, ip.inum, f);
      }
      FilesTrans(old(blocks), old(table), blocks1, table1, blocks, table, ip.inum);
    }

    /** begin_trans, seen from the file system: nothing is logged yet. */
    method BeginTrans()
      modifies this`start, this`trans, this`logged
      ensures Traced() && start == blocks && trans == [] && logged == {}
    {
      start, trans, logged := blocks, [], {};
    }

    ghost predicate Good(ip: Inode)
      reads this, ip
    {
      && Holds(ip) && Synced(sb, blocks, table, ip.inum) && AllOk(table) && NoHole(blocks, table, ip.inum)
      && ip.d.typ != T_DEV
    }

    /** One transaction of filewrite (file.c:157-165). */
    method WriteChunk(ip: Inode, off: U32, piece: seq<Byte>) returns (stop: Panic, r: int)
      requires Good(ip) && |piece| <= CHUNK
      modifies this, ip
      ensures stop == Fine || stop == OutOfBlocks
      ensures Holds(ip) && start == old(blocks) && |Named(trans)| <= MostLogged(sb)
      ensures stop == OutOfBlocks ==> forall c :: 0 <= c < sb.size ==> InUse(sb, blocks, c)
      ensures stop == Fine ==>
                Good(ip) && (r == |piece| || r == -1)
                && (r == -1 <==> off > old(ip.d.size) || off + |piece| > MAXFILE * BSIZE)
      ensures stop == OutOfBlocks ==> off <= old(ip.d.size) && off + |piece| <= MAXFILE * BSIZE
      ensures stop == Fine ==> FilesKept(old(blocks), old(table), blocks, table, ip.inum)
      ensures stop == Fine && r != -1 ==>
                && off <= |old(Content(blocks, table, ip.inum))|
                && Content(blocks, table, ip.inum) == Splice(old(Content(blocks, table, ip.inum)), off, piece)
                && off + |piece| <= ip.d.size
      ensures stop == Fine && r == -1 ==>
                Content(blocks, table, ip.inum) == old(Content(blocks, table, ip.inum)) && ip.d.size == old(ip.d.size)
      ensures Charged(stop == Fine, old(blocks), old(table), old(own), blocks, table, own, ip.inum,
                      if stop == Fine && r == -1 then {} else Range(off, |piece|))
      ensures Took(DataStart(sb), old(own), own, Named(trans)) && Logs(sb, own, Named(trans))
    {
      hide InUse, Ino, Owned, Bits, NoHole, Content, Splice, Took, BitmapSectors, TouchedOk, Replay, HoldFew, Logs,
           Charged, Range, Lacks, MostLogged;
      FilesSelf(blocks, table, ip.inum);
      BeginTrans();
      ghost var touched;
      stop, r, touched := Writei(ip, piece, off);
      ChunkBound(sb, own, ip.inum, |piece|, logged, touched);
      LoggedOwned(sb, blocks, own, logged, touched, ip.inum, |piece|);
      if stop == Fine && r != -1 {
        SpliceTrans(old(Content(blocks, table, ip.inum)), off, piece, []);
      }
    }

    /** filewrite on an inode (file.c:147-178), at the file's offset off: one transaction per chunk.
        It writes the first newOff - off bytes of addr, all of them unless the offset is beyond the end
        or the file would get too long. `chunks` are the transactions, each with a bound on the sectors
        it logs, which on an image with one bitmap block is 7 of the log's LOGSIZE - 1 slots. It runs out
        of blocks exactly if there are fewer free ones than it needs, and keeps away from the sectors from
        lim on exactly if there are enough below lim. A filewrite that does run out of blocks has left a
        transaction unfinished, which `start` and `trans` show. */
    method Filewrite(ip: Inode, off: U32, addr: seq<Byte>, n: int, ghost lim: nat)
      returns (stop: Panic, r: int, newOff: nat, ghost chunks: seq<Chunk>)
      requires Good(ip) && n <= |addr| && |addr| < W32
      modifies this, ip
      ensures stop == Fine || stop == OutOfBlocks
      ensures Valid()
      ensures stop == OutOfBlocks <==>
                Lacks(sb, old(blocks), old(table), ip.inum, Range(off, Attempted(off, old(ip.d.size), n)))
      ensures stop == Fine ==>
                && Good(ip) && newOff == off + Attempted(off, old(ip.d.size), n) && newOff - off <= Max(n, 0)
                && FilesKept(old(blocks), old(table), blocks, table, ip.inum)
                && r == (if newOff - off == n then n else -1)
                && Content(blocks, table, ip.inum)
                   == Spliced(old(Content(blocks, table, ip.inum)), off, addr[..newOff - off])
      ensures Chunked(sb, old(blocks), old(table), ip.inum, off, addr, chunks)
      ensures stop == Fine ==> After(old(blocks), chunks) == blocks
      ensures stop == OutOfBlocks ==>
                && start == After(old(blocks), chunks) && |Named(trans)| <= MostLogged(sb) && |chunks| * CHUNK <= |addr|
                && UpTo(sb, old(blocks), old(table), ip.inum, off, addr[..|chunks| * CHUNK], start)
      ensures old(Clear(sb, blocks, lim)) ==>
                var p := Range(off, Attempted(off, old(ip.d.size), n));
                && (stop == Fine && ChunksBelow(chunks, lim) <==>
                      Needed(old(blocks), old(table), ip.inum, p) <= |FreeBelow(sb, old(blocks), lim)|)
                && (stop == Fine && ChunksBelow(chunks, lim) ==> ChunksClear(sb, chunks, lim))
    {
      hide InUse, Ino, Owned, Bits, NoHole, Content, Splice, FilesKept, Consistent, UpTo, Replay, Named, HoldFew,
           Chunked, After, Clear, AllBelow, ChunksBelow, Books, Charged, Took, Logs, Range, Lacks, Attempted, Slots,
           ChunksClear, Needed, FreeBelow, SyncedBut, Synced, DataStart, Sofar, Spliced,
           MostLogged;
      var i := 0;
      chunks := [];
      r := 0;
      stop := Fine;
      newOff := off;
      ghost var c0, T0, own0, size0 := Content(blocks, table, ip.inum), table, own, ip.d.size;
      SofarNone(c0, off, addr);
      FilesSelf(blocks, table, ip.inum);
      NoChunks(sb, blocks, table, ip.inum, off, addr);
      BooksStart(sb, blocks, table, own, ip.inum, off);
      while i < n
        invariant 0 <= i <= Max(n, 0) && newOff == off + i && stop == Fine
        invariant Good(ip) && FilesKept(old(blocks), old(table), blocks, table, ip.inum)
        invariant i <= |addr| && Sofar(c0, off, addr[..i], Content(blocks, table, ip.inum))
        invariant newOff < W32 && (i < n ==> i == |chunks| * CHUNK)
        invariant |blocks| == |old(blocks)|
        invariant Chunked(sb, old(blocks), T0, ip.inum, off, addr, chunks) && After(old(blocks), chunks) == blocks
        invariant Books(sb, old(blocks), T0, own0, blocks, table, own, ip.inum, Range(off, i), chunks)
      {
        var n1 := n - i;
        if n1 > CHUNK {
          n1 := CHUNK;
        }
        ghost var blocks1, table1, own1 := blocks, table, own;
        SofarIs(c0, off, addr[..i], Content(blocks, table, ip.inum));
        IsUpTo(sb, old(blocks), T0, ip.inum, off, addr[..i], blocks, table, own);
        NotTooLong(blocks, table, ip.inum);
        stop, r := WriteChunk(ip, newOff, addr[i..i + n1]);
        RangeJoin(off, i, n1);
        if off <= size0 {
          AttemptedAt(off, size0, n, i, |chunks|);
        }
        if stop != Fine {
          RanOut(sb, old(blocks), T0, own0, blocks1, table1, own1, blocks, table, own, ip.inum, off, i, n1, chunks,
                 Attempted(off, size0, n), lim);
          return;
        }
        FilesTrans(old(blocks), old(table), blocks1, table1, blocks, table, ip.inum);
        ghost var c := Chunk(blocks1, trans, i, if r < 0 then i else i + n1);
        if r >= 0 {
          SofarMore(c0, off, addr, i, n1, Content(blocks1, table1, ip.inum));
        }
        IsUpTo(sb, old(blocks), T0, ip.inum, off, addr[..c.after], blocks, table, own);
        ChunkAdded(sb, old(blocks), T0, ip.inum, off, addr, chunks, c);
        BooksMore(sb, old(blocks), T0, own0, blocks1, table1, own1, blocks, table, own, ip.inum, Range(off, i),
                  if r < 0 then {} else Range(off + i, n1), chunks, c);
        chunks := chunks + [c];
        if r < 0 {
          assert Range(off, i) + {} == Range(off, i);
          break;
        }
        newOff := newOff + r;
        i := i + r;
      }
      SofarIs(c0, off, addr[..i], Content(blocks, table, ip.inum));
      NotTooLong(blocks, table, ip.inum);
      AllAttempted(off, size0, n, i);
      assert i == Attempted(off, size0, n);
      RanThrough(sb, old(blocks), T0, own0, blocks, table, own, ip.inum, Range(off, i), chunks, lim);
      r := if i == n then n else -1;
    }

    /** The loop of writei (fs.c:508-514). */
    method WriteAll(ip: Inode, src: seq<Byte>, off: nat) returns (stop: Panic, ghost touched: set<nat>)
      requires Holds(ip) && AllOk(table) && NoHole(blocks, table, ip.inum) && off <= ip.d.size
               && off + |src| <= MAXFILE * BSIZE
      modifies this, ip
      ensures start == old(start) && Holds(ip) && Took(DataStart(sb), old(own), own, logged)
      ensures logged <= old(logged) + BitmapSectors(sb) + touched && TouchedOk(own, touched, |src|)
      ensures stop == Fine || stop == OutOfBlocks
      ensures stop == OutOfBlocks ==> forall c :: 0 <= c < sb.size ==> InUse(sb, blocks, c)
      ensures stop == Fine ==>
                && AllOk(table) && table == old(table)[ip.inum := ip.d] && ip.d == old(ip.d).(addrs := ip.d.addrs)
                && Written(old(blocks), old(table), blocks, table, ip.inum, off, src)
                && Ino(sb, blocks, ip.inum) == Ino(sb, old(blocks), ip.inum)
                && (off + |src| <= old(ip.d.size) ==> ip.d == old(ip.d))
      ensures Charged(stop == Fine, old(blocks), old(table), old(own), blocks, table, own, ip.inum, Range(off, |src|))
    {
      hide InUse, Ino, Owned, Bits, Written, BitmapSectors, IndirectSet, BlockFor, Mapped, Footprint, NoHole,
           FileBlocks, Took, TouchedOk, Replay, Named, HoldFew, Charged, Range, Slots;
      var tot := 0;
      stop := Fine;
      WrittenNothing(blocks, table, ip.inum, off);
      RangeNone(off);
      ChargedNone(blocks, table, own, ip.inum, {});
      TookNone(DataStart(sb), own, logged);
      assert src[..0] == [];
      while tot < |src|
        invariant 0 <= tot <= |src| && stop == Fine && start == old(start)
        invariant Holds(ip) && AllOk(table) && table == old(table)[ip.inum := ip.d]
                  && ip.d == old(ip.d).(addrs := ip.d.addrs)
        invariant Written(old(blocks), old(table), blocks, table, ip.inum, off, src[..tot])
        invariant Ino(sb, blocks, ip.inum) == Ino(sb, old(blocks), ip.inum)
        invariant off + tot <= old(ip.d.size) ==> ip.d == old(ip.d)
        invariant logged <= old(logged) + Footprint(sb, blocks, table, ip.inum, off, tot)
        invariant Took(DataStart(sb), old(own), own, logged)
        invariant Charged(true, old(blocks), old(table), old(own), blocks, table, own, ip.inum, Range(off, tot))
      {
        var at := off + tot;
        var m := Min(|src| - tot, BSIZE - at % BSIZE);
        ghost var blocks1, table1, own1, logged1 := blocks, table, own, logged;
        MappedBelow(old(blocks), old(table), blocks, table, ip.inum, off, src[..tot], at);
        stop := WriteBlock(ip, at, src[tot..tot + m]);
        TookTrans(DataStart(sb), old(own), own1, own, logged1, logged);
        ChargedTrans(stop == Fine, old(blocks), old(table), old(own), blocks1, table1, own1, blocks, table, own,
                     ip.inum,
                     Range(off, tot), Range(at, m));
        RangeJoin(off, tot, m);
        if stop != Fine {
          RangeMore(off, tot + m, |src|);
          ChargedMore(old(blocks), old(table), old(own), blocks, table, own, ip.inum, Range(off, tot + m),
                      Range(off, |src|));
          touched := IndirectSet(ip.d) + FileBlocks(blocks1, table1, ip.inum, off, tot);
          TableOk(sb, blocks, table, own);
          TouchedCover(sb, blocks1, table1, ip.inum, off, tot, ip.d);
          TouchedSet(sb, blocks1, table1, own1, blocks, table, own, logged, ip.inum, off, tot, |src|);
          return;
        }
        assert src[..tot + m] == src[..tot] + src[tot..tot + m];
        WrittenTrans(old(blocks), old(table), blocks1, table1, blocks, table, ip.inum, off, src[..tot],
                     src[tot..tot + m]);
        FootprintGrows(sb, old(blocks), old(table), blocks1, table1, blocks, table, ip.inum, off, src[..tot],
                       src[tot..tot + m]);
        tot := tot + m;
      }
      assert src[..tot] == src;
      touched := IndirectSet(ip.d) + FileBlocks(blocks, table, ip.inum, off, tot);
      TouchedCover(sb, blocks, table, ip.inum, off, tot, ip.d);
      TookNone(DataStart(sb), own, logged);
      TouchedSet(sb, blocks, table, own, blocks, table, own, logged, ip.inum, off, tot, |src|);
    }

    /** ip->size = off; iupdate(ip) (fs.c:517-518), after src was written at off. */
    method SetSize(ip: Inode, n: U32, ghost b0: seq<Block>, ghost T0: Inodes, ghost off: nat, ghost src: seq<Byte>)
      requires Holds(ip) && AllOk(table) && AllOk(T0) && |T0| == |table| && off + |src| <= MAXFILE * BSIZE
      requires Written(b0, T0, blocks, table, ip.inum, off, src)
      modifies this, ip
      ensures start == old(start)
      ensures Holds(ip) && AllOk(table) && Synced(sb, blocks, table, ip.inum)
      ensures ip.d == old(ip.d).(size := n) && table == old(table)[ip.inum := ip.d]
      ensures Written(b0, T0, blocks, table, ip.inum, off, src)
      ensures logged == old(logged) + {IBlock(ip.inum)}
      ensures own == old(own) && Slots(blocks, table, ip.inum) == old(Slots(blocks, table, ip.inum))
    {
      hide InUse, Ino, Owned, Bits, Written, Grown, Replay, Named, HoldFew, Slots;
      SizeSet(blocks, table, own, DataStart(sb), sb.size, ip.inum, n);
      SizeSetBytes(blocks, table, ip.inum, n);
      SizeSynced(sb, blocks, table, ip.inum, n);
      ghost var table1 := table;
      ip.d := ip.d.(size := n);
      table := table[ip.inum := ip.d];
      SlotsOf(blocks, table1, table, ip.inum);
      WrittenGrown(b0, T0, blocks, table1, blocks, table, ip.inum, off, src);
      ghost var blocks1, table2 := blocks, table;
      Iupdate(ip);
      WrittenGrown(b0, T0, blocks1, table2, blocks, table, ip.inum, off, src);
    }
  }

  /** Bytes at..at+m of a file, when they lie in one block. */
  lemma {:induction false} SliceOfBlock(blocks: seq<Block>, T: Inodes, i: nat, at: nat, m: nat)
    requires AllOk(T) && i < |T| && at % BSIZE + m <= BSIZE && at + m <= T[i].size && m > 0 && Mapped(blocks, T, i, at)
    ensures Content(blocks, T, i)[at..at + m] == blocks[BlockFor(blocks, T, i, at / BSIZE)][at % BSIZE..at % BSIZE + m]
  {
    var x := BlockFor(blocks, T, i, at / BSIZE);
    forall k | at <= k < at + m
      ensures Content(blocks, T, i)[k] == blocks[x][at % BSIZE + (k - at)]
    {
      InBlock(at, m, k);
    }
  }

  lemma {:induction false} DrainFacts(sb: Super, blocks: seq<Block>, T: Inodes, own: map<nat, Owner>, i: nat, skip: nat)
    requires Draining(sb, blocks, T, own, i, skip) && i < |T|
    ensures SuperOk(sb, blocks) && |T| == sb.ninodes && AllOk(T)
    ensures Indirect(T[i]) != 0 ==>
              Indirect(T[i]) in own && DataStart(sb) <= Indirect(T[i]) < sb.size && InUse(sb, blocks, Indirect(T[i]))
  {
    IndirectOwned(blocks, T, i, skip, own, DataStart(sb), sb.size, i);
    if Indirect(T[i]) != 0 {
      OwnedRelease(sb, blocks, T, own, i, skip, Indirect(T[i]));
    }
  }

  /** Entry j of the indirect block of inode i is given up. */
  lemma {:induction false} EntryDropped(sb: Super, blocks: seq<Block>, T: Inodes, own: map<nat, Owner>, i: nat, j: nat)
    requires Draining(sb, blocks, T, own, i, j) && i < |T| && AllOk(T) && j < NINDIRECT && SuperOk(sb, blocks)
             && |T| == sb.ninodes
    requires SyncedBut(sb, blocks, T, i) && 0 < Indirect(T[i]) < |blocks|
    ensures var x := Indirect(T[i]);
            var b := Word(blocks[x], j);
            if b == 0 then Draining(sb, blocks, T, own, i, j + 1) && OthersSame(blocks, T, blocks, T, i)
            else
              && b in own && b < sb.size && InUse(sb, blocks, b)
              && var after := Released(sb, blocks, b);
                 && Draining(sb, after, T, own - {b}, i, j + 1) && SyncedBut(sb, after, T, i)
                 && OthersSame(blocks, T, after, T, i) && |after| == |blocks| && after[x] == blocks[x]
  {
    var x := Indirect(T[i]);
    var b := Word(blocks[x], j);
    assert b == Ref(blocks, T, i, j, (i, NDIRECT + 1 + j));
    IndirectOwned(blocks, T, i, j, own, DataStart(sb), sb.size, i);
    assert RefOk(blocks, T, i, j, own, (i, NDIRECT + 1 + j));
    hide InUse, Ino, Owned, Bits, OthersSame, Released, Ref, Word;
    if b == 0 {
      GrownSelf(blocks, T);
      GrownOthers(blocks, T, blocks, T, i);
      OwnedSkip(blocks, blocks, T, own, DataStart(sb), sb.size, i, j);
    } else {
      OwnedRelease(sb, blocks, T, own, i, j, b);
      var after := Released(sb, blocks, b);
      assert after[x] == blocks[x];
      hide AgreeBut;
      OwnedSkip(blocks, after, T, own, DataStart(sb), sb.size, i, j);
      OthersDrop(blocks, T, after, T, j, own, DataStart(sb), sb.size, i);
      SyncedKept(sb, blocks, T, after, T, i);
    }
  }

  /** A direct pointer is cleared and its block given up. */
  lemma {:induction false} AddrReleased(sb: Super, blocks: seq<Block>, T: Inodes, own: map<nat, Owner>, i: nat, s: nat)
    requires Consistent(sb, blocks, T, own) && i < |T| && AllOk(T) && SyncedBut(sb, blocks, T, i) && s < NDIRECT
             && T[i].addrs[s] != 0
    ensures var b, T' := T[i].addrs[s], T[i := WithAddr(T[i], s, 0)];
            && b in own && b < sb.size && InUse(sb, blocks, b)
            && var after := Released(sb, blocks, b);
               && Consistent(sb, after, T', own - {b}) && AllOk(T') && SyncedBut(sb, after, T', i)
               && OthersSame(blocks, T, after, T', i)
  {
    var b, T' := T[i].addrs[s], T[i := WithAddr(T[i], s, 0)];
    assert RefOk(blocks, T, 0, 0, own, (i, s));
    assert AllOk(T');
    hide InUse, Ino, Owned, Bits, OthersSame, Released, AgreeBut;
    DrainStart(sb, blocks, T, own, i);
    OwnedRelease(sb, blocks, T, own, i, 0, b);
    var after := Released(sb, blocks, b);
    OwnedDrop(blocks, after, T, own, DataStart(sb), sb.size, i, s);
    OthersDrop(blocks, T, after, T', 0, own, DataStart(sb), sb.size, i);
    SyncedKept(sb, blocks, T, after, T', i);
  }

  /** The drained indirect block is given up. */
  lemma {:induction false} IndirectReleased(sb: Super, blocks: seq<Block>, T: Inodes, own: map<nat, Owner>, i: nat)
    requires Draining(sb, blocks, T, own, i, NINDIRECT) && i < |T| && AllOk(T) && SuperOk(sb, blocks)
             && |T| == sb.ninodes
    requires SyncedBut(sb, blocks, T, i) && 0 < Indirect(T[i]) < sb.size
    ensures var x, T' := Indirect(T[i]), T[i := WithAddr(T[i], NDIRECT, 0)];
            var after := Released(sb, blocks, x);
            && x in own && Consistent(sb, after, T', own - {x}) && AllOk(T') && SyncedBut(sb, after, T', i)
            && OthersSame(blocks, T, after, T', i)
  {
    var x, T' := Indirect(T[i]), T[i := WithAddr(T[i], NDIRECT, 0)];
    var after := Released(sb, blocks, x);
    IndirectOwned(blocks, T, i, NINDIRECT, own, DataStart(sb), sb.size, i);
    assert AllOk(T');
    hide InUse, Ino, Owned, Bits, OthersSame, Released, AgreeBut;
    OwnedRelease(sb, blocks, T, own, i, NINDIRECT, x);
    OwnedDropIndirect(blocks, after, T, own, DataStart(sb), sb.size, i);
    OthersDrop(blocks, T, after, T', NINDIRECT, own, DataStart(sb), sb.size, i);
    SyncedKept(sb, blocks, T, after, T', i);
  }

  lemma {:induction false} ZeroSize(sb: Super, blocks: seq<Block>, T: Inodes, own: map<nat, Owner>, i: nat)
    requires Consistent(sb, blocks, T, own) && AllOk(T) && i < |T| && SyncedBut(sb, blocks, T, i)
    ensures var T' := T[i := T[i].(size := 0)];
            AllOk(T') && Consistent(sb, blocks, T', own) && SyncedBut(sb, blocks, T', i)
            && OthersSame(blocks, T, blocks, T', i)
  {
    SizeSet(blocks, T, own, DataStart(sb), sb.size, i, 0);
    SizeSetBytes(blocks, T, i, 0);
    SizeSynced(sb, blocks, T, i, 0);
    hide Owned, Bits, Grown, OthersSame;
    GrownOthers(blocks, T, blocks, T[i := T[i].(size := 0)], i);
  }

  lemma {:induction false} TypeCleared(sb: Super, blocks: seq<Block>, T: Inodes, own: map<nat, Owner>, i: nat)
    requires Consistent(sb, blocks, T, own) && AllOk(T) && i < |T| && SyncedBut(sb, blocks, T, i)
    ensures var T' := T[i := T[i].(typ := 0)];
            AllOk(T') && Consistent(sb, blocks, T', own) && SyncedBut(sb, blocks, T', i) && Grown(blocks, T, blocks, T')
  {
    var T' := T[i := T[i].(typ := 0)];
    assert AllOk(T');
    forall o: Owner | IsPointer(T', o)
      ensures Ref(blocks, T', 0, 0, o) == Ref(blocks, T, 0, 0, o)
      ensures RefOk(blocks, T', 0, 0, own, o)
    {
      assert RefOk(blocks, T, 0, 0, own, o);
    }
    forall x | x in own
      ensures OwnerOk(blocks, T', 0, 0, own, DataStart(sb), sb.size, x)
    {
      assert OwnerOk(blocks, T, 0, 0, own, DataStart(sb), sb.size, x);
    }
    hide Ino, Bits;
    forall j | 0 <= j < |T'| && j != i
      ensures Synced(sb, blocks, T', j)
    {
      assert Synced(sb, blocks, T, j);
    }
    forall f, k | 0 <= f < |T| && 0 <= k && Mapped(blocks, T, f, k)
      ensures Kept(blocks, T, blocks, T', f, k)
    {
    }
  }

  lemma {:induction false} TruncDone(sb: Super, b0: seq<Block>, T0: Inodes, b1: seq<Block>, T1: Inodes,
                                     own: map<nat, Owner>, i: nat)
    requires Consistent(sb, b1, T1, own) && AllOk(T0) && AllOk(T1) && |T0| == |T1| && i < |T1| && T1 == T0[i := T1[i]]
    requires OthersSame(b0, T0, b1, T1, i) && T1[i].size == 0 && forall s :: 0 <= s <= NDIRECT ==> T1[i].addrs[s] == 0
    ensures forall x :: x in own ==> own[x].0 != i
    ensures Content(b1, T1, i) == []
    ensures FilesKept(b0, T0, b1, T1, i)
  {
    forall x | x in own
      ensures own[x].0 != i
    {
      assert OwnerOk(b1, T1, 0, 0, own, DataStart(sb), sb.size, x);
    }
    hide NoHole, Owned, OthersSame;
    forall f | 0 <= f < |T0| && f != i && NoHole(b0, T0, f)
      ensures FileKept(b0, T0, b1, T1, f)
    {
      OthersContent(b0, T0, b1, T1, i, f);
    }
  }

  lemma {:induction false} SliceAppend(c: seq<Byte>, i: nat, j: nat, k: nat)
    requires i <= j <= k <= |c|
    ensures c[i..k] == c[i..j] + c[j..k]
  {
  }

  lemma {:induction false} SpliceNothing(c: seq<Byte>, off: nat)
    requires off <= |c|
    ensures Splice(c, off, []) == c
  {
  }

  lemma {:induction false} SpliceTrans(c: seq<Byte>, off: nat, p: seq<Byte>, q: seq<Byte>)
    requires off <= |c|
    ensures off + |p| <= |Splice(c, off, p)|
    ensures Splice(Splice(c, off, p), off + |p|, q) == Splice(c, off, p + q)
  {
  }

  lemma {:induction false} SizeSynced(sb: Super, blocks: seq<Block>, T: Inodes, i: nat, n: U32)
    requires SuperOk(sb, blocks) && |T| == sb.ninodes && i < |T| && SyncedBut(sb, blocks, T, i)
    ensures SyncedBut(sb, blocks, T[i := T[i].(size := n)], i)
  {
    hide Ino;
    var T' := T[i := T[i].(size := n)];
    forall j | 0 <= j < |T'| && j != i
      ensures Synced(sb, blocks, T', j)
    {
      assert Synced(sb, blocks, T, j);
    }
  }

  /** Bytes below the old size had a block from the start; so a block is allocated only on growth. */
  lemma {:induction false} MappedBelow(b0: seq<Block>, T0: Inodes, b1: seq<Block>, T1: Inodes, i: nat, off: nat,
                                       p: seq<Byte>, k: nat)
    requires AllOk(T0) && AllOk(T1) && |T0| == |T1| && i < |T0| && NoHole(b0, T0, i)
             && Written(b0, T0, b1, T1, i, off, p)
    ensures k < T0[i].size ==> Mapped(b1, T1, i, k)
  {
    assert WrittenAt(b0, T0, b1, T1, i, off, p, i, k);
  }

  /** The contents after a complete write. */
  lemma {:induction false} WriteDone(b0: seq<Block>, T0: Inodes, b1: seq<Block>, T1: Inodes, i: nat, off: nat,
                                     src: seq<Byte>)
    requires AllOk(T0) && AllOk(T1) && |T0| == |T1| && i < |T0| && Written(b0, T0, b1, T1, i, off, src)
    requires NoHole(b0, T0, i) && off <= T0[i].size && off + |src| <= MAXFILE * BSIZE
    requires T1 == T0[i := T1[i]] && T1[i].size == if off + |src| > T0[i].size then off + |src| else T0[i].size
    ensures NoHole(b1, T1, i) && Content(b1, T1, i) == Splice(Content(b0, T0, i), off, src)
    ensures FilesKept(b0, T0, b1, T1, i)
  {
    hide NoHole, Written, Content, Splice;
    WrittenContent(b0, T0, b1, T1, i, off, src);
    forall f | 0 <= f < |T0| && f != i && NoHole(b0, T0, f)
      ensures FileKept(b0, T0, b1, T1, f)
    {
      WrittenElsewhere(b0, T0, b1, T1, i, off, src, f);
    }
  }

  lemma {:induction false} CannotWrap(off: U32, n: U32)
    ensures Wrap32(off + n) < off ==> off + n >= W32 > MAXFILE * BSIZE
    ensures Wrap32(off + n) >= off ==> Wrap32(off + n) == off + n
  {
  }

  lemma {:induction false} BlockStep(sb: Super, blocks: seq<Block>, T: Inodes, own: map<nat, Owner>, i: nat, off: nat,
                                     piece: seq<Byte>)
    requires Consistent(sb, blocks, T, own) && i < |T| && AllOk(T) && SyncedBut(sb, blocks, T, i)
    requires off / BSIZE < MAXFILE && off % BSIZE + |piece| <= BSIZE
             && 0 < BlockFor(blocks, T, i, off / BSIZE) < |blocks|
    ensures var x := BlockFor(blocks, T, i, off / BSIZE);
            var after := blocks[x := Patch(blocks[x], off % BSIZE, piece)];
            && Consistent(sb, after, T, own) && SyncedBut(sb, after, T, i)
            && Ino(sb, after, i) == Ino(sb, blocks, i)
            && BlockFor(after, T, i, off / BSIZE) == x
  {
    var x := BlockFor(blocks, T, i, off / BSIZE);
    var nb := Patch(blocks[x], off % BSIZE, piece);
    var after := blocks[x := nb];
    MappedOwned(blocks, T, own, DataStart(sb), sb.size, i, off / BSIZE);
    ByteWritten(blocks, T, own, DataStart(sb), sb.size, i, off / BSIZE, nb, i, off);
    PointerKept(blocks, T, own, DataStart(sb), sb.size, i, off / BSIZE, nb, i, off / BSIZE);
    DataWrite(sb, blocks, x, nb);
    hide InUse, Ino, Owned, Patch, BlockFor, Bits;
    BitsKept(sb, blocks, after, own);
    forall j | 0 <= j < |T| && j != i
      ensures Synced(sb, after, T, j)
    {
      assert Synced(sb, blocks, T, j);
    }
  }

  /** The sectors of the bitmap. */
  ghost function BitmapSectors(sb: Super): set<nat> {
    set b: nat | b < sb.size :: BBlock(sb, b)
  }

  /** The indirect block, if there is one. */
  ghost function IndirectSet(d: Dinode): set<nat>
    requires DinodeOk(d)
  {
    if Indirect(d) == 0 then {} else {Indirect(d)}
  }

  ghost predicate IndirectStays(d: Dinode, d': Dinode) {
    DinodeOk(d) && DinodeOk(d') && (Indirect(d) != 0 ==> Indirect(d') == Indirect(d))
  }

  /** The blocks that hold bytes off..off+n of file i. */
  ghost function FileBlocks(blocks: seq<Block>, T: Inodes, i: nat, off: nat, n: nat): set<nat>
    requires AllOk(T) && i < |T| && off + n <= MAXFILE * BSIZE
  {
    set k: nat | off <= k < off + n :: BlockFor(blocks, T, i, k / BSIZE)
  }

  /** What a write of n bytes at off can log, but for the inode. */
  ghost function Footprint(sb: Super, blocks: seq<Block>, T: Inodes, i: nat, off: nat, n: nat): set<nat>
    requires AllOk(T) && i < |T| && off + n <= MAXFILE * BSIZE
  {
    BitmapSectors(sb) + IndirectSet(T[i]) + FileBlocks(blocks, T, i, off, n)
  }

  lemma {:induction false} FootprintGrows(sb: Super, b0: seq<Block>, T0: Inodes, b1: seq<Block>, T1: Inodes,
                                          b2: seq<Block>, T2: Inodes, i: nat, off: nat, p: seq<Byte>, q: seq<Byte>)
    requires AllOk(T0) && AllOk(T1) && AllOk(T2) && |T0| == |T1| == |T2| && i < |T1| && q != []
    requires Written(b0, T0, b1, T1, i, off, p) && Written(b1, T1, b2, T2, i, off + |p|, q)
    requires off + |p| + |q| <= MAXFILE * BSIZE && IndirectStays(T1[i], T2[i])
    ensures Footprint(sb, b1, T1, i, off, |p|) <= Footprint(sb, b2, T2, i, off, |p| + |q|)
    ensures BlockFor(b2, T2, i, (off + |p|) / BSIZE) in Footprint(sb, b2, T2, i, off, |p| + |q|)
    ensures IndirectSet(T2[i]) + BitmapSectors(sb) <= Footprint(sb, b2, T2, i, off, |p| + |q|)
  {
    hide BitmapSectors;
    forall x | x in FileBlocks(b1, T1, i, off, |p|)
      ensures x in FileBlocks(b2, T2, i, off, |p| + |q|)
    {
      var k: nat :| off <= k < off + |p| && x == BlockFor(b1, T1, i, k / BSIZE);
      assert WrittenAt(b0, T0, b1, T1, i, off, p, i, k) && WrittenAt(b1, T1, b2, T2, i, off + |p|, q, i, k);
    }
    assert off <= off + |p| < off + (|p| + |q|);
  }

  lemma {:induction false} InBitmap(sb: Super, b: nat)
    ensures b < sb.size ==> BBlock(sb, b) in BitmapSectors(sb)
  {
  }

  lemma {:induction false} TableOk(sb: Super, blocks: seq<Block>, T: Inodes, own: map<nat, Owner>)
    requires Consistent(sb, blocks, T, own)
    ensures AllOk(T)
  {
  }

  lemma {:induction false} GrownSelf(blocks: seq<Block>, T: Inodes)
    requires AllOk(T)
    ensures Grown(blocks, T, blocks, T)
  {
  }

  lemma {:induction false} GrownTrans(b0: seq<Block>, T0: Inodes, b1: seq<Block>, T1: Inodes, b2: seq<Block>,
                                      T2: Inodes)
    requires AllOk(T0) && AllOk(T1) && AllOk(T2) && |T0| == |T1| == |T2|
    requires Grown(b0, T0, b1, T1) && Grown(b1, T1, b2, T2)
    ensures Grown(b0, T0, b2, T2)
  {
    forall i, k | 0 <= i < |T0| && 0 <= k && Mapped(b0, T0, i, k)
      ensures Kept(b0, T0, b2, T2, i, k)
    {
      assert Kept(b0, T0, b1, T1, i, k) && Kept(b1, T1, b2, T2, i, k);
    }
  }

  lemma {:induction false} Grows(s: set<nat>, x: nat)
    ensures |s| <= |s + {x}| <= |s| + 1
  {
    if x in s {
      assert s + {x} == s;
    }
  }
}
