/** The bytes of a file, as its block pointers and blocks spell them, and what the steps of fs.c do
    to them. */
module FsContent {
  import opened Words
  import opened FsBlocks
  import opened FsOwnership

  /** The pointer that leads to block bn of a file. */
  function SlotOf(bn: nat): nat {
    if bn < NDIRECT then bn else bn + 1
  }

  function BlockFor(blocks: seq<Block>, T: Inodes, i: nat, bn: nat): nat
    requires AllOk(T) && i < |T| && bn < MAXFILE
  {
    Ref(blocks, T, 0, 0, (i, SlotOf(bn)))
  }

  ghost predicate Mapped(blocks: seq<Block>, T: Inodes, i: nat, k: nat)
    requires AllOk(T) && i < |T|
  {
    k / BSIZE < MAXFILE && 0 < BlockFor(blocks, T, i, k / BSIZE) < |blocks|
  }

  /** Byte k of file i. */
  function ByteAt(blocks: seq<Block>, T: Inodes, i: nat, k: nat): Byte
    requires AllOk(T) && i < |T|
  {
    if k / BSIZE < MAXFILE && 0 < BlockFor(blocks, T, i, k / BSIZE) < |blocks|
    then blocks[BlockFor(blocks, T, i, k / BSIZE)][k % BSIZE] else 0
  }

  /** All bytes below the size have a block. */
  ghost predicate NoHole(blocks: seq<Block>, T: Inodes, i: nat)
    requires AllOk(T) && i < |T|
  {
    T[i].size <= MAXFILE * BSIZE && forall k :: 0 <= k < T[i].size ==> Mapped(blocks, T, i, k)
  }

  function Content(blocks: seq<Block>, T: Inodes, i: nat): (s: seq<Byte>)
    requires AllOk(T) && i < |T|
    ensures |s| == T[i].size && forall k :: 0 <= k < |s| ==> s[k] == ByteAt(blocks, T, i, k)
  {
    seq(T[i].size, k requires 0 <= k => ByteAt(blocks, T, i, k))
  }

  /** Every byte that had a block still has it, and its value. */
  ghost predicate Grown(blocks: seq<Block>, T: Inodes, after: seq<Block>, T': Inodes)
    requires AllOk(T) && AllOk(T') && |T'| == |T|
  {
    forall i, k :: 0 <= i < |T| && 0 <= k && Mapped(blocks, T, i, k) ==> Kept(blocks, T, after, T', i, k)
  }

  ghost predicate Kept(blocks: seq<Block>, T: Inodes, after: seq<Block>, T': Inodes, i: nat, k: nat)
    requires AllOk(T) && AllOk(T') && |T'| == |T| && i < |T|
  {
    && Mapped(after, T', i, k) && ByteAt(after, T', i, k) == ByteAt(blocks, T, i, k)
    && BlockFor(after, T', i, k / BSIZE) == (if k / BSIZE < MAXFILE then BlockFor(blocks, T, i, k / BSIZE) else 0)
  }

  /** A data pointer that did not change, to a block that did not change. */
  lemma {:induction false} ByteSame(blocks: seq<Block>, T: Inodes, after: seq<Block>, T': Inodes, i: nat, k: nat)
    requires AllOk(T) && AllOk(T') && |T'| == |T| && i < |T| && |after| == |blocks| && Mapped(blocks, T, i, k)
    requires BlockFor(after, T', i, k / BSIZE) == BlockFor(blocks, T, i, k / BSIZE)
    requires after[BlockFor(blocks, T, i, k / BSIZE)] == blocks[BlockFor(blocks, T, i, k / BSIZE)]
    ensures Kept(blocks, T, after, T', i, k)
  {
  }

  /** The block of a mapped byte is allocated to its pointer. */
  lemma {:induction false} MappedOwned(blocks: seq<Block>, T: Inodes, own: map<nat, Owner>, lo: nat, hi: nat, i: nat,
                                       bn: nat)
    requires Owned(blocks, T, 0, 0, own, lo, hi) && i < |T| && bn < MAXFILE
    ensures var x := BlockFor(blocks, T, i, bn);
            x != 0 ==> x in own && own[x] == (i, SlotOf(bn)) && lo <= x < hi <= |blocks|
  {
    assert RefOk(blocks, T, 0, 0, own, (i, SlotOf(bn)));
    var x := BlockFor(blocks, T, i, bn);
    if x != 0 {
      assert OwnerOk(blocks, T, 0, 0, own, lo, hi, x);
    }
  }

  lemma {:induction false} GrownAddrs(blocks: seq<Block>, after: seq<Block>, T: Inodes, own: map<nat, Owner>, lo: nat,
                                      hi: nat, i: nat, s: nat, b: nat)
    requires Owned(blocks, T, 0, 0, own, lo, hi) && AgreeBut(blocks, after, own, 0) && 0 < lo <= b < hi <= |blocks|
    requires i < |T| && s <= NDIRECT && T[i].addrs[s] == 0 && b !in own && Blank(after[b]) && b < W32
    ensures AllOk(T[i := WithAddr(T[i], s, b)]) && Grown(blocks, T, after, T[i := WithAddr(T[i], s, b)])
  {
    var T' := T[i := WithAddr(T[i], s, b)];
    assert AllOk(T') by {
      AddrsRef(blocks, after, T, own, lo, hi, i, s, b, (i, s));
    }
    forall f, k | 0 <= f < |T| && 0 <= k && Mapped(blocks, T, f, k)
      ensures Kept(blocks, T, after, T', f, k)
    {
      hide Owned;
      AddrsRef(blocks, after, T, own, lo, hi, i, s, b, (f, SlotOf(k / BSIZE)));
      MappedOwned(blocks, T, own, lo, hi, f, k / BSIZE);
      assert RefOk(blocks, T, 0, 0, own, (i, s)) by {
        PointerOk(blocks, T, own, lo, hi, (i, s));
      }
      ByteSame(blocks, T, after, T', f, k);
    }
  }

  lemma {:induction false} PointerOk(blocks: seq<Block>, T: Inodes, own: map<nat, Owner>, lo: nat, hi: nat, o: Owner)
    requires Owned(blocks, T, 0, 0, own, lo, hi) && IsPointer(T, o)
    ensures RefOk(blocks, T, 0, 0, own, o)
  {
  }

  lemma {:induction false} GrownEntry(blocks: seq<Block>, after: seq<Block>, T: Inodes, own: map<nat, Owner>, lo: nat,
                                      hi: nat, i: nat, j: nat, b: U32)
    requires Owned(blocks, T, 0, 0, own, lo, hi) && 0 < lo <= b < hi <= |blocks| && i < |T| && j < NINDIRECT
             && b !in own
    requires var x := Indirect(T[i]);
             && x != 0 && x < |blocks| && AgreeBut(blocks, after, own, x)
             && Word(blocks[x], j) == 0 && after[x] == PutWords(blocks[x], j, [b])
    ensures Grown(blocks, T, after, T)
  {
    assert AllOk(T);
    forall f, k | 0 <= f < |T| && 0 <= k && Mapped(blocks, T, f, k)
      ensures Kept(blocks, T, after, T, f, k)
    {
      hide Owned, Word, PutWords;
      EntryRef(blocks, after, T, own, lo, hi, i, j, b, (f, SlotOf(k / BSIZE)));
      MappedOwned(blocks, T, own, lo, hi, f, k / BSIZE);
      IndirectOwned(blocks, T, 0, 0, own, lo, hi, i);
      assert Ref(blocks, T, 0, 0, (i, NDIRECT + 1 + j)) == 0;
      ByteSame(blocks, T, after, T, f, k);
    }
  }

  /** Writing block bn of file i changes the bytes of that block of that file and nothing else. */
  lemma {:induction false} ByteWritten(blocks: seq<Block>, T: Inodes, own: map<nat, Owner>, lo: nat, hi: nat, i: nat,
                                       bn: nat, nb: Block, f: nat, k: nat)
    requires Owned(blocks, T, 0, 0, own, lo, hi) && i < |T| && bn < MAXFILE && f < |T|
    requires var x := BlockFor(blocks, T, i, bn); 0 < x < |blocks|
    ensures var after := blocks[BlockFor(blocks, T, i, bn) := nb];
            && Owned(after, T, 0, 0, own, lo, hi)
            && (Mapped(after, T, f, k) <==> Mapped(blocks, T, f, k))
            && ByteAt(after, T, f, k) == if f == i && k / BSIZE == bn then nb[k % BSIZE] else ByteAt(blocks, T, f, k)
  {
    var x := BlockFor(blocks, T, i, bn);
    var after := blocks[x := nb];
    MappedOwned(blocks, T, own, lo, hi, i, bn);
    OwnedWrite(blocks, after, T, own, lo, hi, x);
    if k / BSIZE < MAXFILE {
      var o: Owner := (f, SlotOf(k / BSIZE));
      assert IsPointer(T, o);
      assert Ref(after, T, 0, 0, o) == Ref(blocks, T, 0, 0, o);
      MappedOwned(blocks, T, own, lo, hi, f, k / BSIZE);
    }
  }

  // ---- splicing ----

  /** What writing src at off makes of a file's bytes. */
  function Splice(was: seq<Byte>, off: nat, src: seq<Byte>): (s: seq<Byte>)
    requires off <= |was|
  {
    was[..off] + src + (if off + |src| <= |was| then was[off + |src|..] else [])
  }

  /** Byte k of file f after piece was written at off of file i. */
  ghost predicate WrittenAt(b0: seq<Block>, T0: Inodes, b1: seq<Block>, T1: Inodes, i: nat, off: nat, piece: seq<Byte>,
                            f: nat, k: nat)
    requires AllOk(T0) && AllOk(T1) && |T0| == |T1| && f < |T0|
  {
    var inside := f == i && off <= k < off + |piece|;
    && (inside ==> Mapped(b1, T1, f, k) && ByteAt(b1, T1, f, k) == piece[k - off])
    && (Mapped(b0, T0, f, k) ==>
          && Mapped(b1, T1, f, k) && (!inside ==> ByteAt(b1, T1, f, k) == ByteAt(b0, T0, f, k))
          && BlockFor(b1, T1, f, k / BSIZE) == BlockFor(b0, T0, f, k / BSIZE))
  }

  /** piece was written at off of file i, and nothing else changed that had a block. */
  ghost predicate Written(b0: seq<Block>, T0: Inodes, b1: seq<Block>, T1: Inodes, i: nat, off: nat, piece: seq<Byte>)
    requires AllOk(T0) && AllOk(T1) && |T0| == |T1|
  {
    forall f, k :: 0 <= f < |T0| && 0 <= k ==> WrittenAt(b0, T0, b1, T1, i, off, piece, f, k)
  }

  lemma {:induction false} WrittenNothing(b0: seq<Block>, T0: Inodes, i: nat, off: nat)
    requires AllOk(T0)
    ensures Written(b0, T0, b0, T0, i, off, [])
  {
  }

  lemma {:induction false} WrittenTrans(b0: seq<Block>, T0: Inodes, b1: seq<Block>, T1: Inodes, b2: seq<Block>,
                                        T2: Inodes, i: nat, off: nat, p: seq<Byte>, q: seq<Byte>)
    requires AllOk(T0) && AllOk(T1) && AllOk(T2) && |T0| == |T1| == |T2|
    requires Written(b0, T0, b1, T1, i, off, p) && Written(b1, T1, b2, T2, i, off + |p|, q)
    ensures Written(b0, T0, b2, T2, i, off, p + q)
  {
    forall f, k | 0 <= f < |T0| && 0 <= k
      ensures WrittenAt(b0, T0, b2, T2, i, off, p + q, f, k)
    {
      assert WrittenAt(b0, T0, b1, T1, i, off, p, f, k) && WrittenAt(b1, T1, b2, T2, i, off + |p|, q, f, k);
    }
  }

  /** memmove(bp->data + o, src, m). */
  function Patch(b: Block, o: nat, piece: seq<Byte>): (r: Block)
    requires o + |piece| <= BSIZE
    ensures forall k :: 0 <= k < BSIZE ==> r[k] == if o <= k < o + |piece| then piece[k - o] else b[k]
  {
    b[..o] + piece + b[o + |piece|..]
  }

  /** One step of writei's loop: bmap, then the patched block. */
  lemma {:induction false} WrittenBlock(b0: seq<Block>, T0: Inodes, b1: seq<Block>, T1: Inodes, own: map<nat, Owner>,
                                        lo: nat, hi: nat, i: nat, off: nat, piece: seq<Byte>)
    requires AllOk(T0) && |T0| == |T1| && Owned(b1, T1, 0, 0, own, lo, hi) && Grown(b0, T0, b1, T1) && i < |T1|
    requires off / BSIZE < MAXFILE && off % BSIZE + |piece| <= BSIZE && 0 < BlockFor(b1, T1, i, off / BSIZE) < |b1|
    ensures var x := BlockFor(b1, T1, i, off / BSIZE);
            var b2 := b1[x := Patch(b1[x], off % BSIZE, piece)];
            Owned(b2, T1, 0, 0, own, lo, hi) && Written(b0, T0, b2, T1, i, off, piece)
  {
    var x := BlockFor(b1, T1, i, off / BSIZE);
    var nb := Patch(b1[x], off % BSIZE, piece);
    var b2 := b1[x := nb];
    assert AllOk(T1);
    ByteWritten(b1, T1, own, lo, hi, i, off / BSIZE, nb, i, off);
    forall f, k | 0 <= f < |T0| && 0 <= k
      ensures WrittenAt(b0, T0, b2, T1, i, off, piece, f, k)
    {
      hide Owned, Patch;
      ByteWritten(b1, T1, own, lo, hi, i, off / BSIZE, nb, f, k);
      PointerKept(b1, T1, own, lo, hi, i, off / BSIZE, nb, f, k / BSIZE);
      InBlock(off, |piece|, k);
      assert Mapped(b0, T0, f, k) ==> Kept(b0, T0, b1, T1, f, k);
    }
  }

  lemma {:induction false} InBlock(off: nat, m: nat, k: nat)
    requires off % BSIZE + m <= BSIZE
    ensures off <= k < off + m <==> k / BSIZE == off / BSIZE && off % BSIZE <= k % BSIZE < off % BSIZE + m
    ensures k / BSIZE == off / BSIZE ==> k - off == k % BSIZE - off % BSIZE
  {
  }

  lemma {:induction false} PointerKept(blocks: seq<Block>, T: Inodes, own: map<nat, Owner>, lo: nat, hi: nat, i: nat,
                                       bn: nat, nb: Block, f: nat, fbn: nat)
    requires Owned(blocks, T, 0, 0, own, lo, hi) && i < |T| && bn < MAXFILE && f < |T|
    requires var x := BlockFor(blocks, T, i, bn); 0 < x < |blocks|
    ensures fbn < MAXFILE ==>
              BlockFor(blocks[BlockFor(blocks, T, i, bn) := nb], T, f, fbn) == BlockFor(blocks, T, f, fbn)
  {
    var x := BlockFor(blocks, T, i, bn);
    MappedOwned(blocks, T, own, lo, hi, i, bn);
    OwnedWrite(blocks, blocks[x := nb], T, own, lo, hi, x);
    if fbn < MAXFILE {
      var o: Owner := (f, SlotOf(fbn));
      assert IsPointer(T, o);
    }
  }

  /** The file's bytes before and after, once the size is set. */
  lemma {:induction false} WrittenContent(b0: seq<Block>, T0: Inodes, b1: seq<Block>, T1: Inodes, i: nat, off: nat,
                                          src: seq<Byte>)
    requires AllOk(T0) && AllOk(T1) && |T0| == |T1| && i < |T0| && Written(b0, T0, b1, T1, i, off, src)
    requires NoHole(b0, T0, i) && off <= T0[i].size && off + |src| <= MAXFILE * BSIZE
    requires T1[i].size == if off + |src| > T0[i].size then off + |src| else T0[i].size
    ensures NoHole(b1, T1, i) && Content(b1, T1, i) == Splice(Content(b0, T0, i), off, src)
  {
    forall k | 0 <= k < T1[i].size
      ensures Mapped(b1, T1, i, k)
      ensures Content(b1, T1, i)[k] == Splice(Content(b0, T0, i), off, src)[k]
    {
      assert WrittenAt(b0, T0, b1, T1, i, off, src, i, k);
    }
  }

  lemma {:induction false} WrittenElsewhere(b0: seq<Block>, T0: Inodes, b1: seq<Block>, T1: Inodes, i: nat, off: nat,
                                            src: seq<Byte>, f: nat)
    requires AllOk(T0) && AllOk(T1) && |T0| == |T1| && f < |T0| && f != i && Written(b0, T0, b1, T1, i, off, src)
    requires NoHole(b0, T0, f) && T1[f] == T0[f]
    ensures NoHole(b1, T1, f) && Content(b1, T1, f) == Content(b0, T0, f)
  {
    forall k | 0 <= k < T1[f].size
      ensures Mapped(b1, T1, f, k)
      ensures Content(b1, T1, f)[k] == Content(b0, T0, f)[k]
    {
      assert WrittenAt(b0, T0, b1, T1, i, off, src, f, k);
    }
  }

  /** Setting the size moves no pointer. */
  lemma {:induction false} SizeSet(blocks: seq<Block>, T: Inodes, own: map<nat, Owner>, lo: nat, hi: nat, i: nat,
                                   n: U32)
    requires Owned(blocks, T, 0, 0, own, lo, hi) && i < |T|
    ensures var T' := T[i := T[i].(size := n)]; AllOk(T') && Owned(blocks, T', 0, 0, own, lo, hi)
  {
    var T' := T[i := T[i].(size := n)];
    assert AllOk(T');
    forall o: Owner | IsPointer(T', o)
      ensures Ref(blocks, T', 0, 0, o) == Ref(blocks, T, 0, 0, o)
      ensures RefOk(blocks, T', 0, 0, own, o)
    {
      assert RefOk(blocks, T, 0, 0, own, o);
    }
    forall x | x in own
      ensures OwnerOk(blocks, T', 0, 0, own, lo, hi, x)
    {
      assert OwnerOk(blocks, T, 0, 0, own, lo, hi, x);
    }
  }

  lemma {:induction false} SizeSetBytes(blocks: seq<Block>, T: Inodes, i: nat, n: U32)
    requires AllOk(T) && i < |T| && AllOk(T[i := T[i].(size := n)])
    ensures Grown(blocks, T, blocks, T[i := T[i].(size := n)])
  {
    var T' := T[i := T[i].(size := n)];
    forall f, k | 0 <= f < |T| && 0 <= k && Mapped(blocks, T, f, k)
      ensures Kept(blocks, T, blocks, T', f, k)
    {
    }
  }

  lemma {:induction false} WrittenGrown(b0: seq<Block>, T0: Inodes, b1: seq<Block>, T1: Inodes, b2: seq<Block>,
                                        T2: Inodes, i: nat, off: nat, p: seq<Byte>)
    requires AllOk(T0) && AllOk(T1) && AllOk(T2) && |T0| == |T1| == |T2|
    requires Written(b0, T0, b1, T1, i, off, p) && Grown(b1, T1, b2, T2)
    ensures Written(b0, T0, b2, T2, i, off, p)
  {
    forall f, k | 0 <= f < |T0| && 0 <= k
      ensures WrittenAt(b0, T0, b2, T2, i, off, p, f, k)
    {
      assert WrittenAt(b0, T0, b1, T1, i, off, p, f, k);
      assert Mapped(b1, T1, f, k) ==> Kept(b1, T1, b2, T2, f, k);
    }
  }

  /** Writing a sector that no pointer leads to changes no file. */
  lemma {:induction false} GrownMeta(blocks: seq<Block>, T: Inodes, own: map<nat, Owner>, lo: nat, hi: nat, x: nat,
                                     nb: Block)
    requires Owned(blocks, T, 0, 0, own, lo, hi) && x < |blocks| && x !in own
    ensures AllOk(T) && Owned(blocks[x := nb], T, 0, 0, own, lo, hi) && Grown(blocks, T, blocks[x := nb], T)
  {
    var after := blocks[x := nb];
    OwnedWrite(blocks, after, T, own, lo, hi, x);
    forall f, k | 0 <= f < |T| && 0 <= k && Mapped(blocks, T, f, k)
      ensures Kept(blocks, T, after, T, f, k)
    {
      hide Owned;
      MappedOwned(blocks, T, own, lo, hi, f, k / BSIZE);
      var o: Owner := (f, SlotOf(k / BSIZE));
      assert IsPointer(T, o);
      ByteSame(blocks, T, after, T, f, k);
    }
  }

  // ---- truncation ----

  /** Every mapped byte of every file but i is kept. */
  ghost predicate OthersSame(b0: seq<Block>, T0: Inodes, b1: seq<Block>, T1: Inodes, i: nat)
    requires AllOk(T0) && AllOk(T1) && |T1| == |T0|
  {
    forall f, k :: 0 <= f < |T0| && f != i && 0 <= k && Mapped(b0, T0, f, k) ==> Kept(b0, T0, b1, T1, f, k)
  }

  lemma {:induction false} OthersDrop(b0: seq<Block>, T0: Inodes, b1: seq<Block>, T1: Inodes, skip: nat,
                                      own: map<nat, Owner>, lo: nat, hi: nat, i: nat)
    requires Owned(b0, T0, i, skip, own, lo, hi) && AgreeBut(b0, b1, own, 0) && 0 !in own
    requires AllOk(T1) && |T1| == |T0| && i < |T0| && T1 == T0[i := T1[i]]
    ensures OthersSame(b0, T0, b1, T1, i)
  {
    forall f, k | 0 <= f < |T0| && f != i && 0 <= k && Mapped(b0, T0, f, k)
      ensures Kept(b0, T0, b1, T1, f, k)
    {
      var o: Owner := (f, SlotOf(k / BSIZE));
      assert RefOk(b0, T0, i, skip, own, o);
      IndirectOwned(b0, T0, i, skip, own, lo, hi, f);
      RefSame(b0, b1, T0[f], o.1, 0);
      ByteSame(b0, T0, b1, T1, f, k);
    }
  }

  lemma {:induction false} OthersTrans(b0: seq<Block>, T0: Inodes, b1: seq<Block>, T1: Inodes, b2: seq<Block>,
                                       T2: Inodes, i: nat)
    requires AllOk(T0) && AllOk(T1) && AllOk(T2) && |T0| == |T1| == |T2|
    requires OthersSame(b0, T0, b1, T1, i) && OthersSame(b1, T1, b2, T2, i)
    ensures OthersSame(b0, T0, b2, T2, i)
  {
    forall f, k | 0 <= f < |T0| && f != i && 0 <= k && Mapped(b0, T0, f, k)
      ensures Kept(b0, T0, b2, T2, f, k)
    {
      assert Kept(b0, T0, b1, T1, f, k) && Kept(b1, T1, b2, T2, f, k);
    }
  }

  lemma {:induction false} GrownOthers(b0: seq<Block>, T0: Inodes, b1: seq<Block>, T1: Inodes, i: nat)
    requires AllOk(T0) && AllOk(T1) && |T0| == |T1| && Grown(b0, T0, b1, T1)
    ensures OthersSame(b0, T0, b1, T1, i)
  {
  }

  lemma {:induction false} OthersContent(b0: seq<Block>, T0: Inodes, b1: seq<Block>, T1: Inodes, i: nat, f: nat)
    requires AllOk(T0) && AllOk(T1) && |T0| == |T1| && OthersSame(b0, T0, b1, T1, i) && f < |T0| && f != i
    requires NoHole(b0, T0, f) && T1[f] == T0[f]
    ensures NoHole(b1, T1, f) && Content(b1, T1, f) == Content(b0, T0, f)
  {
    forall k | 0 <= k < T1[f].size
      ensures Mapped(b1, T1, f, k)
      ensures Content(b1, T1, f)[k] == Content(b0, T0, f)[k]
    {
      assert Kept(b0, T0, b1, T1, f, k);
    }
  }
}
