/** The on-disk format of kernel/fs.h: blocks of 512 bytes, 32-bit words in them, the free bitmap and
    the inodes; and which sector a bit or an inode lives in. */
module FsBlocks {
  import opened Words

  const BSIZE := 512
  const NDIRECT := 12
  const NINDIRECT := 128
  const MAXFILE := 140
  const IPB := 8
  const BPB := 4096

  type Block = b: seq<Byte> | |b| == BSIZE witness seq(BSIZE, _ => 0)

  function ZeroBlock(): (b: Block)
    ensures forall k :: 0 <= k < BSIZE ==> b[k] == 0
  {
    seq(BSIZE, _ => 0)
  }

  // ---- little-endian words in a block ----

  function Word(b: Block, j: nat): U32
    requires j < BSIZE / 4
  {
    Join(b[4 * j], b[4 * j + 1], b[4 * j + 2], b[4 * j + 3])
  }

  /** ((uint *)data)[start + k] = ws[k]. */
  function PutWords(b: Block, start: nat, ws: seq<U32>): (r: Block)
    requires start + |ws| <= BSIZE / 4
  {
    seq(BSIZE, k requires 0 <= k < BSIZE => PutByte(b, start, ws, k))
  }

  function PutByte(b: Block, start: nat, ws: seq<U32>, k: nat): Byte
    requires k < BSIZE
  {
    if start <= k / 4 < start + |ws| then ByteOf(ws[k / 4 - start], k % 4) else b[k]
  }

  lemma {:induction false} WordPut(b: Block, start: nat, ws: seq<U32>, j: nat)
    requires start + |ws| <= BSIZE / 4 && j < BSIZE / 4
    ensures Word(PutWords(b, start, ws), j) == if start <= j < start + |ws| then ws[j - start] else Word(b, j)
  {
    var r := PutWords(b, start, ws);
    assert (4 * j) / 4 == j && (4 * j + 1) / 4 == j && (4 * j + 2) / 4 == j && (4 * j + 3) / 4 == j;
    assert (4 * j) % 4 == 0 && (4 * j + 1) % 4 == 1 && (4 * j + 2) % 4 == 2 && (4 * j + 3) % 4 == 3;
    if start <= j < start + |ws| {
      var w := ws[j - start];
      assert r[4 * j] == ByteOf(w, 0) && r[4 * j + 1] == ByteOf(w, 1);
      assert r[4 * j + 2] == ByteOf(w, 2) && r[4 * j + 3] == ByteOf(w, 3);
      JoinBytes(w);
    } else {
      assert r[4 * j] == b[4 * j] && r[4 * j + 1] == b[4 * j + 1];
      assert r[4 * j + 2] == b[4 * j + 2] && r[4 * j + 3] == b[4 * j + 3];
    }
  }

  lemma {:induction false} WordZero(j: nat)
    requires j < BSIZE / 4
    ensures Word(ZeroBlock(), j) == 0
  {
  }

  // ---- bits of a bitmap block ----

  /** (x & (1 << k)) != 0; x | (1 << k); x & ~(1 << k). The next lemmas say that they are. */
  predicate TestBit(x: nat, k: nat) {
    if k == 0 then x % 2 == 1 else TestBit(x / 2, k - 1)
  }

  function WithBit(x: nat, k: nat): nat {
    if k == 0 then x / 2 * 2 + 1 else WithBit(x / 2, k - 1) * 2 + x % 2
  }

  function WithoutBit(x: nat, k: nat): nat {
    if k == 0 then x / 2 * 2 else WithoutBit(x / 2, k - 1) * 2 + x % 2
  }

  lemma {:induction false} HalfPow2(k: nat)
    requires k > 0
    ensures Pow2(k) / 2 == Pow2(k - 1) && Pow2(k) % 2 == 0
  {
  }

  lemma {:induction false} OrStep(x: nat, y: nat)
    requires y > 0
    ensures Or(x, y) == 2 * Or(x / 2, y / 2) + (if x % 2 == 1 || y % 2 == 1 then 1 else 0)
  {
  }

  lemma {:induction false} WithBitIsOr(x: nat, k: nat, n: nat)
    requires k < n && x < Pow2(n)
    ensures WithBit(x, k) == Or(x, Pow2(k)) < Pow2(n)
  {
    assert Pow2(n) == 2 * Pow2(n - 1);
    if k == 0 {
      OrZero(x / 2);
    } else {
      WithBitIsOr(x / 2, k - 1, n - 1);
      HalfPow2(k);
      OrStep(x, Pow2(k));
    }
  }

  lemma {:induction false} WithoutBitIsAnd(x: nat, k: nat, n: nat)
    requires k < n && x < Pow2(n)
    ensures Pow2(k) < Pow2(n)
    ensures WithoutBit(x, k) == And(x, Pow2(n) - 1 - Pow2(k)) <= x
  {
    if k == 0 {
      AndOnes(x / 2, n - 1);
      assert (Pow2(n) - 1 - Pow2(k)) / 2 == Pow2(n - 1) - 1;
    } else {
      WithoutBitIsAnd(x / 2, k - 1, n - 1);
      assert (Pow2(n) - 1 - Pow2(k)) / 2 == Pow2(n - 1) - 1 - Pow2(k - 1);
    }
  }

  lemma {:induction false} TestBitIsAnd(x: nat, k: nat)
    ensures TestBit(x, k) <==> And(x, Pow2(k)) != 0
  {
    if k == 0 {
      AndZero(x / 2);
    } else {
      TestBitIsAnd(x / 2, k - 1);
    }
  }

  lemma {:induction false} AndOnes(x: nat, n: nat)
    requires x < Pow2(n)
    ensures And(x, Pow2(n) - 1) == x
  {
    if n > 0 {
      AndOnes(x / 2, n - 1);
      assert (Pow2(n) - 1) / 2 == Pow2(n - 1) - 1;
    }
  }

  lemma {:induction false} BitPut(x: nat, k: nat, j: nat)
    ensures TestBit(WithBit(x, k), j) <==> j == k || TestBit(x, j)
    ensures TestBit(WithoutBit(x, k), j) <==> j != k && TestBit(x, j)
  {
    var y, z := WithBit(x, k), WithoutBit(x, k);
    if k == 0 {
      assert y / 2 == x / 2 && z / 2 == x / 2;
    } else {
      assert y / 2 == WithBit(x / 2, k - 1) && y % 2 == x % 2;
      assert z / 2 == WithoutBit(x / 2, k - 1) && z % 2 == x % 2;
      if j > 0 {
        BitPut(x / 2, k - 1, j - 1);
      }
    }
  }

  lemma {:induction false} BitFits(x: Byte, k: nat)
    requires k < 8
    ensures WithBit(x, k) < 256 && WithoutBit(x, k) < 256
  {
    assert Pow2(8) == 256 by {
      assert Pow2(4) == 16;
      Pow2Add(4, 4);
    }
    WithBitIsOr(x, k, 8);
    WithoutBitIsAnd(x, k, 8);
  }

  /** Bit bi of a bitmap block (fs.c:63-65). */
  predicate BlockBit(b: Block, bi: nat)
    requires bi < BPB
  {
    TestBit(b[bi / 8], bi % 8)
  }

  function SetBlockBit(b: Block, bi: nat): Block
    requires bi < BPB
  {
    BitFits(b[bi / 8], bi % 8);
    b[bi / 8 := WithBit(b[bi / 8], bi % 8)]
  }

  function ClearBlockBit(b: Block, bi: nat): Block
    requires bi < BPB
  {
    BitFits(b[bi / 8], bi % 8);
    b[bi / 8 := WithoutBit(b[bi / 8], bi % 8)]
  }

  lemma {:induction false} BlockBitPut(b: Block, bi: nat, bj: nat)
    requires bi < BPB && bj < BPB
    ensures BlockBit(SetBlockBit(b, bi), bj) <==> bj == bi || BlockBit(b, bj)
    ensures BlockBit(ClearBlockBit(b, bi), bj) <==> bj != bi && BlockBit(b, bj)
  {
    hide TestBit, WithBit, WithoutBit;
    if bi / 8 == bj / 8 {
      BitPut(b[bi / 8], bi % 8, bj % 8);
      assert bi == bj <==> bi % 8 == bj % 8;
    }
  }

  // ---- inodes ----

  datatype Dinode = Dinode(typ: nat, major: nat, minor: nat, nlink: nat, size: nat, addrs: seq<nat>)

  ghost predicate DinodeOk(d: Dinode) {
    && d.typ < 0x1_0000 && d.major < 0x1_0000 && d.minor < 0x1_0000 && d.nlink < 0x1_0000 && d.size < W32
    && |d.addrs| == NDIRECT + 1 && forall k :: 0 <= k <= NDIRECT ==> d.addrs[k] < W32
  }

  /** The 16 words of struct dinode. */
  function DinodeWords(d: Dinode): (ws: seq<U32>)
    requires DinodeOk(d)
    ensures |ws| == 16
  {
    [d.typ + 0x1_0000 * d.major, d.minor + 0x1_0000 * d.nlink, d.size]
    + seq(NDIRECT + 1, k requires 0 <= k <= NDIRECT => d.addrs[k])
  }

  /** Word k of the inode in a slot. */
  function InodeWord(b: Block, slot: nat, k: nat): U32
    requires slot < IPB && k < 16
  {
    Word(b, 16 * slot + k)
  }

  function AddrsAt(b: Block, slot: nat): (addrs: seq<nat>)
    requires slot < IPB
    ensures |addrs| == NDIRECT + 1 && forall k :: 0 <= k <= NDIRECT ==> addrs[k] == InodeWord(b, slot, 3 + k)
  {
    seq<nat>(NDIRECT + 1, (k: nat) requires k <= NDIRECT => InodeWord(b, slot, 3 + k))
  }

  function DinodeAt(b: Block, slot: nat): (d: Dinode)
    requires slot < IPB
    ensures DinodeOk(d)
  {
    var w0, w1 := InodeWord(b, slot, 0), InodeWord(b, slot, 1);
    Dinode(w0 % 0x1_0000, w0 / 0x1_0000, w1 % 0x1_0000, w1 / 0x1_0000, InodeWord(b, slot, 2), AddrsAt(b, slot))
  }

  function PutDinode(b: Block, slot: nat, d: Dinode): Block
    requires slot < IPB && DinodeOk(d)
  {
    PutWords(b, 16 * slot, DinodeWords(d))
  }

  /** An inode is determined by its 16 words. */
  lemma {:induction false} SameWords(b: Block, slot: nat, r: Block)
    requires slot < IPB && forall k :: 0 <= k < 16 ==> InodeWord(r, slot, k) == InodeWord(b, slot, k)
    ensures DinodeAt(r, slot) == DinodeAt(b, slot)
  {
    hide InodeWord;
    assert AddrsAt(r, slot) == AddrsAt(b, slot);
  }

  lemma {:induction false} ReadBack(r: Block, slot: nat, d: Dinode)
    requires slot < IPB && DinodeOk(d) && forall k :: 0 <= k < 16 ==> InodeWord(r, slot, k) == DinodeWords(d)[k]
    ensures DinodeAt(r, slot) == d
  {
    hide InodeWord;
    assert AddrsAt(r, slot) == d.addrs;
  }

  /** An inode reads back as written, and writing it leaves the others of its block alone. */
  lemma {:induction false} DinodePut(b: Block, slot: nat, d: Dinode, other: nat)
    requires slot < IPB && other < IPB && DinodeOk(d)
    ensures DinodeAt(PutDinode(b, slot, d), other) == if other == slot then d else DinodeAt(b, other)
  {
    hide Word, PutWords, DinodeWords, DinodeAt;
    var r := PutDinode(b, slot, d);
    forall k | 0 <= k < 16
      ensures InodeWord(r, other, k) == if other == slot then DinodeWords(d)[k] else InodeWord(b, other, k)
    {
      WordPut(b, 16 * slot, DinodeWords(d), 16 * other + k);
    }
    hide PutDinode, InodeWord;
    if other == slot {
      ReadBack(r, slot, d);
    } else {
      SameWords(b, other, r);
    }
  }

  // ---- where things are ----

  /** The part of the superblock that the file system code uses. */
  datatype Super = Super(size: nat, ninodes: nat)

  function IBlock(i: nat): nat {
    i / IPB + 2
  }

  function BBlock(sb: Super, b: nat): nat {
    b / BPB + sb.ninodes / IPB + 3
  }

  /** The first data block (mkfs.c:77-79). */
  function DataStart(sb: Super): nat {
    sb.ninodes / IPB + 3 + (sb.size / BPB + 1)
  }

  lemma {:induction false} SectorRoles(sb: Super, i: nat, b: nat)
    requires i < sb.ninodes && b < sb.size
    ensures 1 < IBlock(i) < BBlock(sb, b) < DataStart(sb)
  {
    assert i / IPB <= sb.ninodes / IPB && b / BPB <= sb.size / BPB;
  }

  predicate SuperOk(sb: Super, blocks: seq<Block>) {
    DataStart(sb) <= sb.size <= |blocks| && sb.size < W32 && sb.ninodes < W32
  }

  /** Block b is marked in use. */
  predicate InUse(sb: Super, blocks: seq<Block>, b: nat)
    requires SuperOk(sb, blocks) && b < sb.size
  {
    BInRange(sb, b);
    BlockBit(blocks[BBlock(sb, b)], b % BPB)
  }

  lemma {:induction false} BInRange(sb: Super, b: nat)
    requires b < sb.size
    ensures BBlock(sb, b) < DataStart(sb)
  {
    assert b / BPB <= sb.size / BPB;
  }

  /** The sector that holds the bit of block b. */
  function BSector(sb: Super, blocks: seq<Block>, b: nat): (x: nat)
    requires SuperOk(sb, blocks) && b < sb.size
    ensures x == BBlock(sb, b) && x < DataStart(sb) <= |blocks|
  {
    BInRange(sb, b);
    BBlock(sb, b)
  }

  lemma {:induction false} IInRange(sb: Super, i: nat)
    requires i < sb.ninodes
    ensures IBlock(i) < DataStart(sb)
  {
    assert i / IPB <= sb.ninodes / IPB;
  }

  function Ino(sb: Super, blocks: seq<Block>, i: nat): (d: Dinode)
    requires SuperOk(sb, blocks) && i < sb.ninodes
    ensures DinodeOk(d)
  {
    IInRange(sb, i);
    DinodeAt(blocks[IBlock(i)], i % IPB)
  }

  // ---- what one sector write changes ----

  /** A write to a data sector changes no bit and no inode. */
  lemma {:induction false} DataWrite(sb: Super, blocks: seq<Block>, x: nat, nb: Block)
    requires SuperOk(sb, blocks) && DataStart(sb) <= x < |blocks|
    ensures forall b :: 0 <= b < sb.size ==> InUse(sb, blocks[x := nb], b) == InUse(sb, blocks, b)
    ensures forall i :: 0 <= i < sb.ninodes ==> Ino(sb, blocks[x := nb], i) == Ino(sb, blocks, i)
  {
    hide BlockBit, DinodeAt;
    forall b | 0 <= b < sb.size
      ensures InUse(sb, blocks[x := nb], b) == InUse(sb, blocks, b)
    {
      BInRange(sb, b);
    }
    forall i | 0 <= i < sb.ninodes
      ensures Ino(sb, blocks[x := nb], i) == Ino(sb, blocks, i)
    {
      IInRange(sb, i);
    }
  }

  function MarkedBlock(sb: Super, blocks: seq<Block>, b: nat, used: bool): Block
    requires SuperOk(sb, blocks) && b < sb.size
  {
    BInRange(sb, b);
    var bits := blocks[BBlock(sb, b)];
    if used then SetBlockBit(bits, b % BPB) else ClearBlockBit(bits, b % BPB)
  }

  /** Marking block b changes that bit only. */
  lemma {:induction false} BitWrite(sb: Super, blocks: seq<Block>, b: nat, used: bool, c: nat)
    requires SuperOk(sb, blocks) && b < sb.size && c < sb.size
    ensures BBlock(sb, b) < |blocks|
    ensures InUse(sb, blocks[BBlock(sb, b) := MarkedBlock(sb, blocks, b, used)], c) == if c == b then used
            else InUse(sb, blocks, c)
  {
    BInRange(sb, b);
    BInRange(sb, c);
    hide BlockBit, SetBlockBit, ClearBlockBit;
    if BBlock(sb, c) == BBlock(sb, b) {
      BlockBitPut(blocks[BBlock(sb, b)], b % BPB, c % BPB);
      assert c == b <==> c % BPB == b % BPB;
    }
  }

  lemma {:induction false} BitWriteInodes(sb: Super, blocks: seq<Block>, b: nat, used: bool)
    requires SuperOk(sb, blocks) && b < sb.size
    ensures BBlock(sb, b) < |blocks|
    ensures forall i :: 0 <= i < sb.ninodes ==>
              Ino(sb, blocks[BBlock(sb, b) := MarkedBlock(sb, blocks, b, used)], i) == Ino(sb, blocks, i)
  {
    BInRange(sb, b);
    hide DinodeAt, MarkedBlock;
    forall i | 0 <= i < sb.ninodes
      ensures Ino(sb, blocks[BBlock(sb, b) := MarkedBlock(sb, blocks, b, used)], i) == Ino(sb, blocks, i)
    {
      SectorRoles(sb, i, b);
    }
  }

  function InodeBlock(sb: Super, blocks: seq<Block>, i: nat, d: Dinode): Block
    requires SuperOk(sb, blocks) && i < sb.ninodes && DinodeOk(d)
  {
    IInRange(sb, i);
    PutDinode(blocks[IBlock(i)], i % IPB, d)
  }

  /** Writing inode i changes that inode only. */
  lemma {:induction false} InodeWrite(sb: Super, blocks: seq<Block>, i: nat, d: Dinode, j: nat)
    requires SuperOk(sb, blocks) && i < sb.ninodes && DinodeOk(d) && j < sb.ninodes
    ensures IBlock(i) < |blocks|
    ensures Ino(sb, blocks[IBlock(i) := InodeBlock(sb, blocks, i, d)], j) == if j == i then d else Ino(sb, blocks, j)
  {
    IInRange(sb, i);
    IInRange(sb, j);
    hide DinodeAt, PutDinode;
    if IBlock(j) == IBlock(i) {
      DinodePut(blocks[IBlock(i)], i % IPB, d, j % IPB);
      assert j == i <==> j % IPB == i % IPB;
    }
  }

  lemma {:induction false} InodeWriteBits(sb: Super, blocks: seq<Block>, i: nat, d: Dinode)
    requires SuperOk(sb, blocks) && i < sb.ninodes && DinodeOk(d)
    ensures IBlock(i) < |blocks|
    ensures forall b :: 0 <= b < sb.size ==>
              InUse(sb, blocks[IBlock(i) := InodeBlock(sb, blocks, i, d)], b) == InUse(sb, blocks, b)
  {
    IInRange(sb, i);
    hide BlockBit, PutDinode;
    forall b | 0 <= b < sb.size
      ensures InUse(sb, blocks[IBlock(i) := InodeBlock(sb, blocks, i, d)], b) == InUse(sb, blocks, b)
    {
      SectorRoles(sb, i, b);
    }
  }
}
