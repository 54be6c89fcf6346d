/** mkfs.c: building a file system image. Blocks are handed out in order, and the bitmap is written at
    the end; the result is the consistent file system that the kernel starts from. */
module Mkfs {
  import opened Words
  import opened FsBlocks
  import opened FsOwnership
  import opened FsContent
  import opened Fs

  /** No block is marked yet. */
  ghost predicate NoBits(sb: Super, blocks: seq<Block>)
    requires SuperOk(sb, blocks)
  {
    forall b :: 0 <= b < sb.size ==> !InUse(sb, blocks, b)
  }

  /** The image while it is being filled: blocks below fb are used, the others are still zero. */
  ghost predicate Draft(sb: Super, blocks: seq<Block>, T: Inodes, own: map<nat, Owner>, fb: nat) {
    && SuperOk(sb, blocks) && |T| == sb.ninodes && Owned(blocks, T, 0, 0, own, DataStart(sb), sb.size) && AllOk(T)
    && DataStart(sb) <= fb <= sb.size && NoBits(sb, blocks)
    && (forall b :: b in own <==> DataStart(sb) <= b < fb)
    && Untouched(sb, blocks, fb)
  }

  ghost predicate Untouched(sb: Super, blocks: seq<Block>, fb: nat)
    requires sb.size <= |blocks|
  {
    forall b :: fb <= b < sb.size ==> blocks[b] == ZeroBlock()
  }

  lemma {:induction false} UntouchedBelow(sb: Super, blocks: seq<Block>, fb: nat, x: nat, nb: Block)
    requires sb.size <= |blocks| && Untouched(sb, blocks, fb) && x < fb <= sb.size
    ensures Untouched(sb, blocks[x := nb], fb) && Untouched(sb, blocks[x := nb], fb + 1)
            && Untouched(sb, blocks, fb + 1)
  {
  }

  lemma {:induction false} NoBitsKept(sb: Super, blocks: seq<Block>, after: seq<Block>)
    requires SuperOk(sb, blocks) && SuperOk(sb, after) && NoBits(sb, blocks)
    requires forall b :: 0 <= b < sb.size ==> InUse(sb, after, b) == InUse(sb, blocks, b)
    ensures NoBits(sb, after)
  {
    hide InUse;
    forall b | 0 <= b < sb.size
      ensures !InUse(sb, after, b)
    {
      assert InUse(sb, after, b) == InUse(sb, blocks, b);
    }
  }

  /** din.addrs[s] = freeblock++ (mkfs.c:366, mkfs.c:374). */
  lemma {:induction false} DraftAddr(sb: Super, blocks: seq<Block>, T: Inodes, own: map<nat, Owner>, fb: nat, i: nat,
                                     s: nat)
    requires Draft(sb, blocks, T, own, fb) && i < |T| && s <= NDIRECT && T[i].addrs[s] == 0 && fb < sb.size
    ensures var T', own' := T[i := WithAddr(T[i], s, fb)], own[fb := (i, s)];
            && 0 < fb && AllOk(T') && Draft(sb, blocks, T', own', fb + 1) && Grown(blocks, T, blocks, T')
  {
    ZeroIsBlank();
    assert AgreeBut(blocks, blocks, own, 0) && Blank(blocks[fb]);
    assert Untouched(sb, blocks, fb + 1);
    hide Owned, Grown, NoBits, Blank, Untouched;
    OwnedAddrs(blocks, blocks, T, own, DataStart(sb), sb.size, i, s, fb);
    GrownAddrs(blocks, blocks, T, own, DataStart(sb), sb.size, i, s, fb);
  }

  /** indirect[j] = freeblock++; wsect (mkfs.c:382-384). */
  lemma {:induction false} DraftEntry(sb: Super, blocks: seq<Block>, T: Inodes, own: map<nat, Owner>, fb: nat, i: nat,
                                      j: nat)
    requires Draft(sb, blocks, T, own, fb) && i < |T| && j < NINDIRECT && fb < sb.size
    requires var x := Indirect(T[i]); 0 < x < |blocks| && Word(blocks[x], j) == 0
    ensures var x := Indirect(T[i]);
            var after, own' := blocks[x := PutWords(blocks[x], j, [fb])], own[fb := (i, NDIRECT + 1 + j)];
            && 0 < fb && Draft(sb, after, T, own', fb + 1) && Grown(blocks, T, after, T)
            && Ref(after, T, 0, 0, (i, NDIRECT + 1 + j)) == fb
            && (forall k :: 0 <= k < sb.ninodes ==> Ino(sb, after, k) == Ino(sb, blocks, k))
  {
    hide Owned, Grown, NoBits, Word, PutWords, InUse, Ino, Ref, Indirect, Untouched;
    var x := Indirect(T[i]);
    var after := blocks[x := PutWords(blocks[x], j, [fb])];
    IndirectOwned(blocks, T, 0, 0, own, DataStart(sb), sb.size, i);
    assert AgreeBut(blocks, after, own, x);
    UntouchedBelow(sb, blocks, fb, x, PutWords(blocks[x], j, [fb]));
    DataWrite(sb, blocks, x, PutWords(blocks[x], j, [fb]));
    NoBitsKept(sb, blocks, after);
    OwnedEntry(blocks, after, T, own, DataStart(sb), sb.size, i, j, fb);
    GrownEntry(blocks, after, T, own, DataStart(sb), sb.size, i, j, fb);
    EntryRef(blocks, after, T, own, DataStart(sb), sb.size, i, j, fb, (i, NDIRECT + 1 + j));
  }

  /** Writing into a used data block. */
  lemma {:induction false} DraftBlock(sb: Super, blocks: seq<Block>, T: Inodes, own: map<nat, Owner>, fb: nat, i: nat,
                                      off: nat, piece: seq<Byte>)
    requires Draft(sb, blocks, T, own, fb) && i < |T| && off / BSIZE < MAXFILE && off % BSIZE + |piece| <= BSIZE
    requires 0 < BlockFor(blocks, T, i, off / BSIZE) < |blocks|
    ensures var x := BlockFor(blocks, T, i, off / BSIZE);
            var after := blocks[x := Patch(blocks[x], off % BSIZE, piece)];
            && Draft(sb, after, T, own, fb)
            && (forall k :: 0 <= k < sb.ninodes ==> Ino(sb, after, k) == Ino(sb, blocks, k))
  {
    var x := BlockFor(blocks, T, i, off / BSIZE);
    var nb := Patch(blocks[x], off % BSIZE, piece);
    MappedOwned(blocks, T, own, DataStart(sb), sb.size, i, off / BSIZE);
    ByteWritten(blocks, T, own, DataStart(sb), sb.size, i, off / BSIZE, nb, i, off);
    hide Owned, NoBits, InUse, Ino, Patch, Untouched;
    UntouchedBelow(sb, blocks, fb, x, nb);
    DataWrite(sb, blocks, x, nb);
    NoBitsKept(sb, blocks, blocks[x := nb]);
  }

  /** winode of the kernel's view of inode i (mkfs.c:278-288). */
  lemma {:induction false} DraftInode(sb: Super, blocks: seq<Block>, T: Inodes, own: map<nat, Owner>, fb: nat, i: nat)
    requires Draft(sb, blocks, T, own, fb) && i < |T| && DinodeOk(T[i]) && SyncedBut(sb, blocks, T, i)
    ensures IBlock(i) < |blocks|
    ensures var after := blocks[IBlock(i) := InodeBlock(sb, blocks, i, T[i])];
            && Draft(sb, after, T, own, fb) && Grown(blocks, T, after, T)
            && forall k :: 0 <= k < |T| ==> Synced(sb, after, T, k)
  {
    IInRange(sb, i);
    hide InUse, Ino, InodeBlock, Owned, NoBits, Grown, Untouched, DinodeOk;
    InodeSynced(sb, blocks, T, i);
    InodeBits(sb, blocks, T, i);
    MetaDraft(sb, blocks, T, own, fb, IBlock(i), InodeBlock(sb, blocks, i, T[i]));
  }

  lemma {:induction false} InodeBits(sb: Super, blocks: seq<Block>, T: Inodes, i: nat)
    requires SuperOk(sb, blocks) && |T| == sb.ninodes && i < |T| && DinodeOk(T[i])
    ensures IBlock(i) < |blocks|
    ensures var after := blocks[IBlock(i) := InodeBlock(sb, blocks, i, T[i])];
            forall b :: 0 <= b < sb.size ==> InUse(sb, after, b) == InUse(sb, blocks, b)
  {
    hide InUse, Ino, InodeBlock, DinodeOk;
    InodeWriteBits(sb, blocks, i, T[i]);
  }

  lemma {:induction false} InodeSynced(sb: Super, blocks: seq<Block>, T: Inodes, i: nat)
    requires SuperOk(sb, blocks) && |T| == sb.ninodes && i < |T| && DinodeOk(T[i]) && SyncedBut(sb, blocks, T, i)
    ensures IBlock(i) < |blocks|
    ensures var after := blocks[IBlock(i) := InodeBlock(sb, blocks, i, T[i])];
            SuperOk(sb, after) && forall k :: 0 <= k < |T| ==> Synced(sb, after, T, k)
  {
    hide Ino, InodeBlock, InUse;
    IInRange(sb, i);
    var after := blocks[IBlock(i) := InodeBlock(sb, blocks, i, T[i])];
    forall k | 0 <= k < |T|
      ensures Synced(sb, after, T, k)
    {
      InodeWrite(sb, blocks, i, T[i], k);
      assert k != i ==> Synced(sb, blocks, T, k);
    }
  }

  lemma {:induction false} MetaDraft(sb: Super, blocks: seq<Block>, T: Inodes, own: map<nat, Owner>, fb: nat, x: nat,
                                     nb: Block)
    requires Draft(sb, blocks, T, own, fb) && x < DataStart(sb)
    requires forall b :: 0 <= b < sb.size ==> InUse(sb, blocks[x := nb], b) == InUse(sb, blocks, b)
    ensures Draft(sb, blocks[x := nb], T, own, fb) && Grown(blocks, T, blocks[x := nb], T)
  {
    hide InUse, Owned, NoBits, Grown, Untouched;
    UntouchedBelow(sb, blocks, fb, x, nb);
    GrownMeta(blocks, T, own, DataStart(sb), sb.size, x, nb);
    NoBitsKept(sb, blocks, blocks[x := nb]);
  }

  class Builder {
    const sb: Super
    var blocks: seq<Block>
    var freeblock: nat
    var usedblocks: nat
    var freeinode: nat
    ghost var table: Inodes
    ghost var own: map<nat, Owner>

    ghost predicate Valid()
      reads this
    {
      && Draft(sb, blocks, table, own, freeblock) && usedblocks == freeblock
      && (forall i :: 0 <= i < |table| ==> Synced(sb, blocks, table, i))
      && (forall i :: 0 <= i < |table| ==> NoHole(blocks, table, i))
      && (forall i :: freeinode <= i < |table| ==> table[i] == EmptyInode())
    }

    /** While inode i is being worked on, in din. */
    ghost predicate Editing(i: nat, din: Dinode)
      reads this
    {
      && Draft(sb, blocks, table, own, freeblock) && usedblocks == freeblock
      && i < |table| && table[i] == din && SyncedBut(sb, blocks, table, i)
    }

    /** mkfs (mkfs.c:68-95): all sectors zero, but for the superblock in sector 1. */
    constructor (s: Super, super: Block)
      requires DataStart(s) <= s.size < W32 && s.ninodes < W32
      ensures Valid() && sb == s && freeinode == 1 && freeblock == DataStart(s) && own == map[]
    {
      sb := s;
      blocks := seq(s.size, _ => ZeroBlock())[1 := super];
      freeblock, usedblocks, freeinode := DataStart(s), DataStart(s), 1;
      table := seq(s.ninodes, _ => EmptyInode());
      own := map[];
      new;
      EmptyImage(sb, blocks, table);
    }

    /** ialloc (mkfs.c:316-326). */
    method Ialloc(typ: nat) returns (inum: nat)
      requires Valid() && typ < 0x1_0000 && freeinode < sb.ninodes
      modifies this`blocks, this`freeinode, this`table
      ensures Valid() && inum == old(freeinode) && freeinode == inum + 1
      ensures table[inum] == EmptyInode().(typ := typ, nlink := 1)
      ensures FilesKept(old(blocks), old(table), blocks, table, inum)
    {
      inum := freeinode;
      freeinode := freeinode + 1;
      var din := EmptyInode().(typ := typ, nlink := 1);
      ghost var table1 := table[inum := din];
      FreshInode(sb, blocks, table, own, freeblock, inum, din);
      DraftInode(sb, blocks, table1, own, freeblock, inum);
      IInRange(sb, inum);
      FreshFiles(sb, blocks, table, own, freeblock, inum, din);
      hide Draft, Ino, NoHole, Content, Grown, InodeBlock;
      blocks := blocks[IBlock(inum) := InodeBlock(sb, blocks, inum, din)];
      table := table1;
    }

    /** The block of position fbn (mkfs.c:364-388); false if the image is full, as rsect then fails. */
    method Locate(i: nat, din: Dinode, fbn: nat) returns (ok: bool, x: nat, din': Dinode)
      requires Editing(i, din) && fbn < MAXFILE
      modifies this`blocks, this`freeblock, this`usedblocks, this`table, this`own
      ensures !ok ==> freeblock >= sb.size
      ensures ok ==>
                && Editing(i, din') && table == old(table)[i := din'] && din' == din.(addrs := din'.addrs)
                && AllOk(old(table)) && AllOk(table) && Grown(old(blocks), old(table), blocks, table)
                && x == BlockFor(blocks, table, i, fbn) && 0 < x < sb.size
    {
      hide Owned, Grown, NoBits, Ino;
      ok, x, din' := true, 0, din;
      GrownSelf(blocks, table);
      if fbn < NDIRECT {
        if din.addrs[fbn] == 0 {
          ok, din' := NewAddr(i, din, fbn);
          if !ok {
            return;
          }
        }
        x := din'.addrs[fbn];
        MappedOwned(blocks, table, own, DataStart(sb), sb.size, i, fbn);
        return;
      }
      if din.addrs[NDIRECT] == 0 {
        ok, din' := NewAddr(i, din, NDIRECT);
        if !ok {
          return;
        }
      }
      IndirectIn(sb, blocks, table, own, freeblock, i);
      ghost var blocks1, table1 := blocks, table;
      ok, x := Entry(i, din', fbn - NDIRECT);
      if ok {
        GrownTrans(old(blocks), old(table), blocks1, table1, blocks, table);
      }
    }

    /** One turn of iappend's loop (mkfs.c:361-396): the part of the data that goes into one block. */
    method AppendBlock(i: nat, din: Dinode, off: nat, piece: seq<Byte>) returns (ok: bool, din': Dinode)
      requires Editing(i, din) && piece != [] && off % BSIZE + |piece| <= BSIZE && off / BSIZE < MAXFILE
      modifies this`blocks, this`freeblock, this`usedblocks, this`table, this`own
      ensures !ok ==> freeblock >= sb.size
      ensures ok ==>
                && Editing(i, din') && table == old(table)[i := din'] && din' == din.(addrs := din'.addrs)
                && AllOk(old(table)) && AllOk(table) && Written(old(blocks), old(table), blocks, table, i, off, piece)
    {
      hide Owned, Grown, NoBits, Ino, Written, Patch, Untouched, BlockFor;
      var x;
      ok, x, din' := Locate(i, din, off / BSIZE);
      if !ok {
        return;
      }
      WrittenBlock(old(blocks), old(table), blocks, table, own, DataStart(sb), sb.size, i, off, piece);
      DraftBlock(sb, blocks, table, own, freeblock, i, off, piece);
      ghost var before := blocks;
      blocks := blocks[x := Patch(blocks[x], off % BSIZE, piece)];
      SyncedKept(sb, before, table, blocks, table, i);
    }

    /** iappend (mkfs.c:348-401): the data goes behind what the file has. False if mkfs stops, because
        the file would get too long or the image is full. */
    method Iappend(inum: nat, data: seq<Byte>) returns (ok: bool)
      requires Valid() && inum < freeinode && inum < sb.ninodes && |data| < W32
      modifies this`blocks, this`freeblock, this`usedblocks, this`table, this`own
      ensures !ok ==> freeblock >= sb.size || old(table[inum].size) + |data| > MAXFILE * BSIZE
      ensures ok ==>
                && Valid() && AllOk(old(table)) && AllOk(table)
                && Content(blocks, table, inum) == Content(old(blocks), old(table), inum) + data
                && FilesKept(old(blocks), old(table), blocks, table, inum)
    {
      hide Owned, Grown, NoBits, Ino, Written, NoHole, Content, Untouched;
      IInRange(sb, inum);
      assert Synced(sb, blocks, table, inum);
      var din := Ino(sb, blocks, inum);
      assert SyncedBut(sb, blocks, table, inum);
      var off := din.size;
      var k := 0;
      WrittenNothing(blocks, table, inum, off);
      assert data[..0] == [];
      while k < |data|
        invariant 0 <= k <= |data| && Editing(inum, din) && table == old(table)[inum := din]
        invariant din == old(table)[inum].(addrs := din.addrs) && (k > 0 ==> off + k <= MAXFILE * BSIZE)
        invariant AllOk(old(table)) && AllOk(table)
                  && Written(old(blocks), old(table), blocks, table, inum, off, data[..k])
      {
        var at := off + k;
        if at / BSIZE >= MAXFILE {
          return false;
        }
        var n1 := Min(|data| - k, (at / BSIZE + 1) * BSIZE - at);
        ghost var blocks1, table1 := blocks, table;
        ok, din := AppendBlock(inum, din, at, data[k..k + n1]);
        if !ok {
          return;
        }
        WrittenTrans(old(blocks), old(table), blocks1, table1, blocks, table, inum, off, data[..k], data[k..k + n1]);
        assert data[..k + n1] == data[..k] + data[k..k + n1];
        k := k + n1;
      }
      assert data[..k] == data;
      FinishInode(inum, din, off + |data|, old(blocks), old(table), data);
      ok := true;
    }

    /** din.size = off; winode (mkfs.c:399-400). */
    method FinishInode(inum: nat, din: Dinode, n: nat, ghost b0: seq<Block>, ghost T0: Inodes, ghost data: seq<Byte>)
      requires Editing(inum, din) && AllOk(T0) && AllOk(table) && |T0| == |table| && table == T0[inum := din]
      requires din == T0[inum].(addrs := din.addrs) && n == din.size + |data|
      requires data != [] ==> n <= MAXFILE * BSIZE
      requires forall i :: 0 <= i < |T0| ==> NoHole(b0, T0, i)
      requires inum < freeinode && forall i :: freeinode <= i < |T0| ==> T0[i] == EmptyInode()
      requires Written(b0, T0, blocks, table, inum, din.size, data)
      modifies this`blocks, this`table
      ensures Valid() && AllOk(table) && Content(blocks, table, inum) == Content(b0, T0, inum) + data
      ensures FilesKept(b0, T0, blocks, table, inum)
    {
      assert NoHole(b0, T0, inum);
      assert din.size <= MAXFILE * BSIZE;
      hide Owned, Grown, NoBits, Ino, Written, NoHole, Content, Untouched, InodeBlock;
      var din' := din.(size := n);
      ghost var T1 := table[inum := din'];
      DraftSize(sb, blocks, table, own, freeblock, inum, n);
      WrittenGrown(b0, T0, blocks, table, blocks, T1, inum, din.size, data);
      DraftInode(sb, blocks, T1, own, freeblock, inum);
      IInRange(sb, inum);
      ghost var blocks1 := blocks;
      blocks := blocks[IBlock(inum) := InodeBlock(sb, blocks, inum, din')];
      table := T1;
      WrittenGrown(b0, T0, blocks1, T1, blocks, T1, inum, din.size, data);
      WriteDone(b0, T0, blocks, T1, inum, din.size, data);
      SpliceEnd(Content(b0, T0, inum), data);
      AllNoHole(b0, T0, blocks, T1, inum);
    }

    /** balloc (mkfs.c:329-343): the bitmap, written last. The image is then a consistent file system
        with every inode on disk as in memory, and no file has a hole. */
    method Balloc()
      requires Valid() && usedblocks < BPB
      modifies this`blocks
      ensures Finished(sb, old(blocks), blocks, table, own)
    {
      hide Draft, Synced, NoHole, Content, BlockBit, Finished;
      var buf := FirstBits(usedblocks);
      BitmapWritten(sb, blocks, table, own, freeblock, buf);
      blocks := blocks[sb.ninodes / IPB + 3 := buf];
    }

    method NewAddr(i: nat, din: Dinode, s: nat) returns (ok: bool, din': Dinode)
      requires Editing(i, din) && s <= NDIRECT && din.addrs[s] == 0
      modifies this`freeblock, this`usedblocks, this`table, this`own
      ensures ok <==> old(freeblock) < sb.size
      ensures !ok ==> freeblock == old(freeblock)
      ensures ok ==>
                && Editing(i, din') && din' == WithAddr(din, s, old(freeblock)) && table == old(table)[i := din']
                && 0 < old(freeblock) < sb.size
                && AllOk(old(table)) && AllOk(table) && Grown(blocks, old(table), blocks, table)
    {
      ok, din' := freeblock < sb.size, din;
      if !ok {
        return;
      }
      DraftAddr(sb, blocks, table, own, freeblock, i, s);
      hide Owned, Grown, NoBits, Ino;
      din' := WithAddr(din, s, freeblock);
      EditSynced(sb, blocks, table, i, din');
      table := table[i := din'];
      own := own[freeblock := (i, s)];
      freeblock, usedblocks := freeblock + 1, usedblocks + 1;
    }

    method Entry(i: nat, din: Dinode, j: nat) returns (ok: bool, x: nat)
      requires Editing(i, din) && j < NINDIRECT && 0 < Indirect(din) < sb.size
      modifies this`blocks, this`freeblock, this`usedblocks, this`own
      ensures !ok ==> freeblock >= sb.size
      ensures ok ==>
                && Editing(i, din) && AllOk(table) && Grown(old(blocks), table, blocks, table)
                && x == BlockFor(blocks, table, i, NDIRECT + j) && 0 < x < sb.size
    {
      hide Owned, Grown, NoBits, Ino, Word, PutWords;
      GrownSelf(blocks, table);
      var ind := Indirect(din);
      x := Word(blocks[ind], j);
      ok := true;
      if x == 0 {
        ok := freeblock < sb.size;
        if !ok {
          return;
        }
        x := freeblock;
        DraftEntry(sb, blocks, table, own, freeblock, i, j);
        ghost var before := blocks;
        blocks := blocks[ind := PutWords(blocks[ind], j, [freeblock])];
        own := own[freeblock := (i, NDIRECT + 1 + j)];
        freeblock, usedblocks := freeblock + 1, usedblocks + 1;
        SyncedKept(sb, before, table, blocks, table, i);
        return;
      }
      MappedOwned(blocks, table, own, DataStart(sb), sb.size, i, NDIRECT + j);
    }
  }

  /** An image of zeros, but for the superblock. */
  ghost predicate Zeroed(sb: Super, blocks: seq<Block>) {
    && DataStart(sb) <= sb.size < W32 && sb.ninodes < W32 && |blocks| == sb.size
    && forall b :: 0 <= b < sb.size && b != 1 ==> blocks[b] == ZeroBlock()
  }

  lemma {:induction false} ZeroedBits(sb: Super, blocks: seq<Block>)
    requires Zeroed(sb, blocks)
    ensures SuperOk(sb, blocks) && NoBits(sb, blocks)
  {
    hide BlockBit, ZeroBlock;
    forall b | 0 <= b < sb.size
      ensures !InUse(sb, blocks, b)
    {
      BInRange(sb, b);
      ZeroBit(b % BPB);
    }
  }

  lemma {:induction false} ZeroedInode(sb: Super, blocks: seq<Block>, T: Inodes, i: nat)
    requires Zeroed(sb, blocks) && |T| == sb.ninodes && i < |T| && T[i] == EmptyInode()
    ensures Synced(sb, blocks, T, i)
  {
    hide DinodeAt, ZeroBlock, EmptyInode;
    IInRange(sb, i);
    ZeroInode(i % IPB);
  }

  /** Empty inodes have no pointers, and nothing is owned. */
  lemma {:induction false} NothingOwned(blocks: seq<Block>, T: Inodes, lo: nat, hi: nat)
    requires forall i :: 0 <= i < |T| ==> T[i] == EmptyInode()
    ensures AllOk(T) && Owned(blocks, T, 0, 0, map[], lo, hi)
  {
    assert AllOk(T);
    forall o: Owner | IsPointer(T, o)
      ensures RefOk(blocks, T, 0, 0, map[], o)
    {
      hide Word;
    }
  }

  /** An image of zeros holds empty inodes and no marked block. */
  lemma {:induction false} EmptyImage(sb: Super, blocks: seq<Block>, T: Inodes)
    requires Zeroed(sb, blocks) && |T| == sb.ninodes && forall i :: 0 <= i < |T| ==> T[i] == EmptyInode()
    ensures Draft(sb, blocks, T, map[], DataStart(sb))
    ensures forall i :: 0 <= i < |T| ==> Synced(sb, blocks, T, i) && NoHole(blocks, T, i)
  {
    ZeroedBits(sb, blocks);
    NothingOwned(blocks, T, DataStart(sb), sb.size);
    assert Untouched(sb, blocks, DataStart(sb));
    hide Owned, NoBits, Untouched, Synced, NoHole, Zeroed, ZeroBlock;
    forall i | 0 <= i < |T|
      ensures Synced(sb, blocks, T, i) && NoHole(blocks, T, i)
    {
      ZeroedInode(sb, blocks, T, i);
      EmptyNoHole(blocks, T, i);
    }
  }

  function EmptyInode(): (d: Dinode)
    ensures DinodeOk(d)
  {
    Dinode(0, 0, 0, 0, 0, seq(NDIRECT + 1, _ => 0))
  }

  lemma {:induction false} ZeroBit(bi: nat)
    requires bi < BPB
    ensures !BlockBit(ZeroBlock(), bi)
  {
    NoBitOfZero(bi % 8);
  }

  lemma {:induction false} NoBitOfZero(k: nat)
    ensures !TestBit(0, k)
  {
    if k > 0 {
      NoBitOfZero(k - 1);
    }
  }

  lemma {:induction false} ZeroInode(slot: nat)
    requires slot < IPB
    ensures DinodeAt(ZeroBlock(), slot) == EmptyInode()
  {
    hide Word, DinodeAt, ZeroBlock;
    forall k | 0 <= k < 16
      ensures InodeWord(ZeroBlock(), slot, k) == DinodeWords(EmptyInode())[k]
    {
      WordZero(16 * slot + k);
      assert k >= 3 ==> DinodeWords(EmptyInode())[k] == EmptyInode().addrs[k - 3];
    }
    hide InodeWord;
    ReadBack(ZeroBlock(), slot, EmptyInode());
  }

  lemma {:induction false} EditSynced(sb: Super, blocks: seq<Block>, T: Inodes, i: nat, d: Dinode)
    requires SuperOk(sb, blocks) && |T| == sb.ninodes && i < |T| && SyncedBut(sb, blocks, T, i)
    ensures SyncedBut(sb, blocks, T[i := d], i)
  {
    hide Ino;
    var T' := T[i := d];
    forall j | 0 <= j < |T'| && j != i
      ensures Synced(sb, blocks, T', j)
    {
      assert Synced(sb, blocks, T, j);
    }
  }

  /** A new inode has no pointers, like the free one it replaces. */
  lemma {:induction false} FreshInode(sb: Super, blocks: seq<Block>, T: Inodes, own: map<nat, Owner>, fb: nat, i: nat,
                                      d: Dinode)
    requires Draft(sb, blocks, T, own, fb) && i < |T| && DinodeOk(d) && d.addrs == T[i].addrs
    requires forall k :: 0 <= k < |T| ==> Synced(sb, blocks, T, k)
    ensures var T' := T[i := d];
            AllOk(T') && Draft(sb, blocks, T', own, fb) && SyncedBut(sb, blocks, T', i) && Grown(blocks, T, blocks, T')
  {
    var T' := T[i := d];
    assert AllOk(T');
    forall o: Owner | IsPointer(T', o)
      ensures Ref(blocks, T', 0, 0, o) == Ref(blocks, T, 0, 0, o)
      ensures RefOk(blocks, T', 0, 0, own, o)
    {
      assert RefOk(blocks, T, 0, 0, own, o);
    }
    forall x | x in own
      ensures OwnerOk(blocks, T', 0, 0, own, DataStart(sb), sb.size, x)
    {
      assert OwnerOk(blocks, T, 0, 0, own, DataStart(sb), sb.size, x);
    }
    assert SyncedBut(sb, blocks, T, i);
    EditSynced(sb, blocks, T, i, d);
    hide Ino, NoBits, Owned;
    forall f, k | 0 <= f < |T| && 0 <= k && Mapped(blocks, T, f, k)
      ensures Kept(blocks, T, blocks, T', f, k)
    {
    }
  }

  /** ialloc changes no other file, and the new one is empty. */
  lemma {:induction false} FreshFiles(sb: Super, blocks: seq<Block>, T: Inodes, own: map<nat, Owner>, fb: nat, i: nat,
                                      d: Dinode)
    requires Draft(sb, blocks, T, own, fb) && i < |T| && DinodeOk(d) && d.addrs == T[i].addrs && d.size == 0
    requires forall k :: 0 <= k < |T| ==> Synced(sb, blocks, T, k) && NoHole(blocks, T, k)
    requires IBlock(i) < |blocks|
    ensures var after, T' := blocks[IBlock(i) := InodeBlock(sb, blocks, i, d)], T[i := d];
            AllOk(T') && FilesKept(blocks, T, after, T', i) && forall k :: 0 <= k < |T| ==> NoHole(after, T', k)
  {
    FreshInode(sb, blocks, T, own, fb, i, d);
    var T' := T[i := d];
    DraftInode(sb, blocks, T', own, fb, i);
    var after := blocks[IBlock(i) := InodeBlock(sb, blocks, i, d)];
    hide Draft, Ino, NoHole, Content, Grown, InodeBlock;
    GrownTrans(blocks, T, blocks, T', after, T');
    GrownOthers(blocks, T, after, T', i);
    forall f | 0 <= f < |T| && f != i
      ensures FileKept(blocks, T, after, T', f) && NoHole(after, T', f)
    {
      OthersContent(blocks, T, after, T', i, f);
    }
    EmptyNoHole(after, T', i);
  }

  lemma {:induction false} EmptyNoHole(blocks: seq<Block>, T: Inodes, i: nat)
    requires AllOk(T) && i < |T| && T[i].size == 0
    ensures NoHole(blocks, T, i)
  {
  }

  lemma {:induction false} DraftSize(sb: Super, blocks: seq<Block>, T: Inodes, own: map<nat, Owner>, fb: nat, i: nat,
                                     n: U32)
    requires Draft(sb, blocks, T, own, fb) && i < |T| && SyncedBut(sb, blocks, T, i)
    ensures var T' := T[i := T[i].(size := n)];
            AllOk(T') && Draft(sb, blocks, T', own, fb) && SyncedBut(sb, blocks, T', i) && Grown(blocks, T, blocks, T')
  {
    SizeSet(blocks, T, own, DataStart(sb), sb.size, i, n);
    SizeSetBytes(blocks, T, i, n);
    SizeSynced(sb, blocks, T, i, n);
    hide Owned, Grown, NoBits, Untouched;
  }

  lemma {:induction false} SpliceEnd(c: seq<Byte>, data: seq<Byte>)
    ensures Splice(c, |c|, data) == c + data
  {
  }

  lemma {:induction false} AllNoHole(b0: seq<Block>, T0: Inodes, b1: seq<Block>, T1: Inodes, i: nat)
    requires FilesKept(b0, T0, b1, T1, i) && i < |T1| && NoHole(b1, T1, i) && forall f :: 0 <= f < |T0| ==>
               NoHole(b0, T0, f)
    ensures forall f :: 0 <= f < |T1| ==> NoHole(b1, T1, f)
  {
    hide NoHole, Content;
    forall f | 0 <= f < |T1|
      ensures NoHole(b1, T1, f)
    {
      assert NoHole(b0, T0, f);
      assert f != i ==> FileKept(b0, T0, b1, T1, f);
    }
  }

  /** The bitmap block in which the first used bits are set (mkfs.c:335-339). */
  method FirstBits(used: nat) returns (buf: Block)
    requires used < BPB
    ensures forall b :: 0 <= b < BPB ==> (BlockBit(buf, b) <==> b < used)
  {
    buf := ZeroBlock();
    var i := 0;
    forall b | 0 <= b < BPB
      ensures !BlockBit(buf, b)
    {
      ZeroBit(b);
    }
    hide BlockBit, SetBlockBit;
    while i < used
      invariant 0 <= i <= used && forall b :: 0 <= b < BPB ==> (BlockBit(buf, b) <==> b < i)
    {
      ghost var buf0 := buf;
      buf := SetBlockBit(buf, i);
      forall b | 0 <= b < BPB
        ensures BlockBit(buf, b) <==> b < i + 1
      {
        BlockBitPut(buf0, i, b);
      }
      i := i + 1;
    }
  }

  lemma {:induction false} BitmapBit(sb: Super, blocks: seq<Block>, fb: nat, buf: Block, b: nat)
    requires SuperOk(sb, blocks) && fb < BPB && b < sb.size && !InUse(sb, blocks, b)
    requires forall c :: 0 <= c < BPB ==> (BlockBit(buf, c) <==> c < fb)
    ensures sb.ninodes / IPB + 3 < |blocks| && (InUse(sb, blocks[sb.ninodes / IPB + 3 := buf], b) <==> b < fb)
  {
    hide BlockBit;
    BInRange(sb, 0);
    BInRange(sb, b);
    assert b < BPB ==> BBlock(sb, b) == sb.ninodes / IPB + 3 && b % BPB == b;
    assert b >= BPB ==> BBlock(sb, b) != sb.ninodes / IPB + 3;
  }

  lemma {:induction false} BitmapBits(sb: Super, blocks: seq<Block>, own: map<nat, Owner>, fb: nat, buf: Block)
    requires SuperOk(sb, blocks) && DataStart(sb) <= fb < BPB && NoBits(sb, blocks)
    requires forall b :: b in own <==> DataStart(sb) <= b < fb
    requires forall c :: 0 <= c < BPB ==> (BlockBit(buf, c) <==> c < fb)
    ensures sb.ninodes / IPB + 3 < |blocks| && Bits(sb, blocks[sb.ninodes / IPB + 3 := buf], own)
  {
    hide BlockBit, InUse;
    BInRange(sb, 0);
    var after := blocks[sb.ninodes / IPB + 3 := buf];
    forall b | 0 <= b < sb.size
      ensures InUse(sb, after, b) <==> b < DataStart(sb) || b in own
    {
      BitmapBit(sb, blocks, fb, buf, b);
    }
  }

  /** A consistent file system, with every inode on disk as in memory and no hole in any file, holding
      the files that the draft held. */
  ghost predicate Finished(sb: Super, draft: seq<Block>, blocks: seq<Block>, T: Inodes, own: map<nat, Owner>) {
    && Consistent(sb, blocks, T, own) && AllOk(T)
    && (forall i :: 0 <= i < |T| ==> Synced(sb, blocks, T, i) && NoHole(blocks, T, i))
    && (forall i :: 0 <= i < |T| ==> Content(blocks, T, i) == Content(draft, T, i))
  }

  /** Writing the finished bitmap. */
  lemma {:induction false} BitmapWritten(sb: Super, blocks: seq<Block>, T: Inodes, own: map<nat, Owner>, fb: nat,
                                         buf: Block)
    requires Draft(sb, blocks, T, own, fb) && fb < BPB && forall b :: 0 <= b < BPB ==> (BlockBit(buf, b) <==> b < fb)
    requires forall i :: 0 <= i < |T| ==> Synced(sb, blocks, T, i) && NoHole(blocks, T, i)
    ensures sb.ninodes / IPB + 3 < |blocks| && Finished(sb, blocks, blocks[sb.ninodes / IPB + 3 := buf], T, own)
  {
    hide Owned, Grown, BlockBit, NoHole, Content, InUse, Bits, NoBits, Untouched;
    var x := sb.ninodes / IPB + 3;
    BInRange(sb, 0);
    assert x == BBlock(sb, 0) < DataStart(sb) && x !in own;
    var after := blocks[x := buf];
    GrownMeta(blocks, T, own, DataStart(sb), sb.size, x, buf);
    BitmapBits(sb, blocks, own, fb, buf);
    forall i | 0 <= i < |T|
      ensures Synced(sb, after, T, i) && NoHole(after, T, i) && Content(after, T, i) == Content(blocks, T, i)
    {
      assert Synced(sb, blocks, T, i);
      SectorInode(sb, blocks, buf, i);
      GrownSame(blocks, T, after, i);
    }
  }

  lemma {:induction false} SectorInode(sb: Super, blocks: seq<Block>, buf: Block, i: nat)
    requires SuperOk(sb, blocks) && i < sb.ninodes
    ensures sb.ninodes / IPB + 3 < |blocks| && Ino(sb, blocks[sb.ninodes / IPB + 3 := buf], i) == Ino(sb, blocks, i)
  {
    hide DinodeAt;
    BInRange(sb, 0);
    SectorRoles(sb, i, 0);
  }

  lemma {:induction false} GrownSame(blocks: seq<Block>, T: Inodes, after: seq<Block>, i: nat)
    requires AllOk(T) && i < |T| && Grown(blocks, T, after, T) && NoHole(blocks, T, i)
    ensures NoHole(after, T, i) && Content(after, T, i) == Content(blocks, T, i)
  {
    forall k | 0 <= k < T[i].size
      ensures Mapped(after, T, i, k) && Content(after, T, i)[k] == Content(blocks, T, i)[k]
    {
      assert Kept(blocks, T, after, T, i, k);
    }
  }

  lemma {:induction false} IndirectIn(sb: Super, blocks: seq<Block>, T: Inodes, own: map<nat, Owner>, fb: nat, i: nat)
    requires Draft(sb, blocks, T, own, fb) && i < |T|
    ensures Indirect(T[i]) != 0 ==> Indirect(T[i]) < sb.size
  {
    IndirectOwned(blocks, T, 0, 0, own, DataStart(sb), sb.size, i);
  }
}
