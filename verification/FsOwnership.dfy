/** Who owns which block: every allocated data block is the target of exactly one block pointer of
    one inode, and every pointer points to an allocated block. */
module FsOwnership {
  import opened Words
  import opened FsBlocks

  /** The pointers of an inode: 0..11 direct, 12 the indirect block, 13.. the entries of that block. */
  const SLOTS := NDIRECT + 1 + NINDIRECT

  type Inodes = seq<Dinode>

  /** A pointer: inode and slot. */
  type Owner = (nat, nat)

  /** The indirect block of d, or 0. */
  function Indirect(d: Dinode): nat
    requires DinodeOk(d)
  {
    d.addrs[NDIRECT]
  }

  /** Where pointer s of inode d points (0: nowhere), not counting the first skip indirect entries. */
  function RefOf(blocks: seq<Block>, d: Dinode, s: nat, skip: nat): nat
    requires DinodeOk(d) && s < SLOTS
  {
    if s <= NDIRECT then d.addrs[s]
    else if s < NDIRECT + 1 + skip || Indirect(d) == 0 || Indirect(d) >= |blocks| then 0
    else Word(blocks[Indirect(d)], s - NDIRECT - 1)
  }

  /** The entries that inode who has given up already while it is being truncated. */
  function SkipOf(who: nat, skip: nat, i: nat): nat {
    if i == who then skip else 0
  }

  ghost predicate IsPointer(T: Inodes, o: Owner) {
    o.0 < |T| && o.1 < SLOTS
  }

  function Ref(blocks: seq<Block>, T: Inodes, who: nat, skip: nat, o: Owner): nat
    requires IsPointer(T, o) && DinodeOk(T[o.0])
  {
    RefOf(blocks, T[o.0], o.1, SkipOf(who, skip, o.0))
  }

  ghost predicate AllOk(T: Inodes) {
    forall i :: 0 <= i < |T| ==> DinodeOk(T[i])
  }

  ghost predicate RefOk(blocks: seq<Block>, T: Inodes, who: nat, skip: nat, own: map<nat, Owner>, o: Owner)
    requires AllOk(T) && IsPointer(T, o)
  {
    var x := Ref(blocks, T, who, skip, o);
    x != 0 ==> x in own && own[x] == o
  }

  ghost predicate OwnerOk(blocks: seq<Block>, T: Inodes, who: nat, skip: nat, own: map<nat, Owner>, lo: nat, hi: nat,
                          x: nat)
    requires AllOk(T) && x in own
  {
    0 < lo <= x < hi <= |blocks| && IsPointer(T, own[x]) && Ref(blocks, T, who, skip, own[x]) == x
  }

  /** own is exactly the correspondence between allocated blocks, all in [lo, hi), and pointers. */
  ghost predicate Owned(blocks: seq<Block>, T: Inodes, who: nat, skip: nat, own: map<nat, Owner>, lo: nat, hi: nat) {
    && AllOk(T)
    && (forall o: Owner :: IsPointer(T, o) ==> RefOk(blocks, T, who, skip, own, o))
    && (forall x :: x in own ==> OwnerOk(blocks, T, who, skip, own, lo, hi, x))
  }

  /** A block that, read as an indirect block, points nowhere. */
  ghost predicate Blank(b: Block) {
    forall j :: 0 <= j < NINDIRECT ==> Word(b, j) == 0
  }

  lemma {:induction false} ZeroIsBlank()
    ensures Blank(ZeroBlock())
  {
    forall j | 0 <= j < NINDIRECT
      ensures Word(ZeroBlock(), j) == 0
    {
      WordZero(j);
    }
  }

  /** The two block arrays agree on the allocated blocks, except perhaps on x. */
  ghost predicate AgreeBut(blocks: seq<Block>, after: seq<Block>, own: map<nat, Owner>, x: nat) {
    |after| == |blocks| && forall y :: y in own && y != x && y < |blocks| ==> after[y] == blocks[y]
  }

  /** No two pointers share a block. */
  lemma {:induction false} RefsDistinct(blocks: seq<Block>, T: Inodes, who: nat, skip: nat, own: map<nat, Owner>,
                                        lo: nat, hi: nat, o: Owner, u: Owner)
    requires Owned(blocks, T, who, skip, own, lo, hi) && IsPointer(T, o) && IsPointer(T, u)
    requires Ref(blocks, T, who, skip, o) == Ref(blocks, T, who, skip, u) != 0
    ensures o == u
  {
    assert RefOk(blocks, T, who, skip, own, o) && RefOk(blocks, T, who, skip, own, u);
  }

  /** An indirect block that has not changed holds the same pointers. */
  lemma {:induction false} RefSame(blocks: seq<Block>, after: seq<Block>, d: Dinode, s: nat, skip: nat)
    requires DinodeOk(d) && s < SLOTS && |after| == |blocks|
    requires Indirect(d) == 0 || Indirect(d) >= |blocks| || after[Indirect(d)] == blocks[Indirect(d)]
    ensures RefOf(after, d, s, skip) == RefOf(blocks, d, s, skip)
  {
  }

  /** The indirect block of any inode is allocated, and is no one else's. */
  lemma {:induction false} IndirectOwned(blocks: seq<Block>, T: Inodes, who: nat, skip: nat, own: map<nat, Owner>,
                                         lo: nat, hi: nat, i: nat)
    requires Owned(blocks, T, who, skip, own, lo, hi) && i < |T|
    ensures Indirect(T[i]) != 0 ==>
              Indirect(T[i]) in own && own[Indirect(T[i])] == (i, NDIRECT) && Indirect(T[i]) < |blocks|
  {
    assert RefOk(blocks, T, who, skip, own, (i, NDIRECT));
    if Indirect(T[i]) != 0 {
      assert OwnerOk(blocks, T, who, skip, own, lo, hi, Indirect(T[i]));
    }
  }

  // ---- one block more ----

  function WithAddr(d: Dinode, s: nat, x: nat): Dinode
    requires |d.addrs| == NDIRECT + 1 && s <= NDIRECT
  {
    d.(addrs := d.addrs[s := x])
  }

  /** A zeroed free block becomes the target of a direct pointer, or an indirect block. */
  lemma {:induction false} OwnedAddrs(blocks: seq<Block>, after: seq<Block>, T: Inodes, own: map<nat, Owner>, lo: nat,
                                      hi: nat, i: nat, s: nat, b: nat)
    requires Owned(blocks, T, 0, 0, own, lo, hi) && AgreeBut(blocks, after, own, 0) && 0 < lo <= b < hi <= |blocks|
    requires i < |T| && s <= NDIRECT && T[i].addrs[s] == 0 && b !in own && Blank(after[b]) && b < W32
    ensures Owned(after, T[i := WithAddr(T[i], s, b)], 0, 0, own[b := (i, s)], lo, hi)
  {
    var T', own' := T[i := WithAddr(T[i], s, b)], own[b := (i, s)];
    forall o: Owner | IsPointer(T', o)
      ensures RefOk(after, T', 0, 0, own', o)
    {
      AddrsRef(blocks, after, T, own, lo, hi, i, s, b, o);
    }
    forall x | x in own'
      ensures OwnerOk(after, T', 0, 0, own', lo, hi, x)
    {
      if x != b {
        assert OwnerOk(blocks, T, 0, 0, own, lo, hi, x);
        AddrsRef(blocks, after, T, own, lo, hi, i, s, b, own[x]);
      }
    }
  }

  lemma {:induction false} AddrsRef(blocks: seq<Block>, after: seq<Block>, T: Inodes, own: map<nat, Owner>, lo: nat,
                                    hi: nat, i: nat, s: nat, b: nat, o: Owner)
    requires Owned(blocks, T, 0, 0, own, lo, hi) && AgreeBut(blocks, after, own, 0) && 0 < lo <= b < hi <= |blocks|
    requires i < |T| && s <= NDIRECT && T[i].addrs[s] == 0 && b !in own && Blank(after[b]) && b < W32
    requires IsPointer(T, o)
    ensures AllOk(T[i := WithAddr(T[i], s, b)])
    ensures Ref(after, T[i := WithAddr(T[i], s, b)], 0, 0, o) == if o == (i, s) then b else Ref(blocks, T, 0, 0, o)
    ensures RefOk(after, T[i := WithAddr(T[i], s, b)], 0, 0, own[b := (i, s)], o)
  {
    var T' := T[i := WithAddr(T[i], s, b)];
    assert RefOk(blocks, T, 0, 0, own, o);
    IndirectOwned(blocks, T, 0, 0, own, lo, hi, o.0);
    assert AllOk(T') by {
      assert DinodeOk(T[i]);
    }
    assert DinodeOk(T[o.0]);
    hide Owned, Word, AllOk, DinodeOk;
    if o.1 > NDIRECT {
      if o.0 == i && s == NDIRECT {
        assert Word(after[b], o.1 - NDIRECT - 1) == 0;
      } else {
        RefSame(blocks, after, T[o.0], o.1, 0);
      }
    }
  }

  /** A free block becomes the target of entry j of the indirect block. */
  lemma {:induction false} OwnedEntry(blocks: seq<Block>, after: seq<Block>, T: Inodes, own: map<nat, Owner>, lo: nat,
                                      hi: nat, i: nat, j: nat, b: U32)
    requires Owned(blocks, T, 0, 0, own, lo, hi) && 0 < lo <= b < hi <= |blocks| && i < |T| && j < NINDIRECT
             && b !in own
    requires var x := Indirect(T[i]);
             && x != 0 && x < |blocks| && AgreeBut(blocks, after, own, x)
             && Word(blocks[x], j) == 0 && after[x] == PutWords(blocks[x], j, [b])
    ensures Owned(after, T, 0, 0, own[b := (i, NDIRECT + 1 + j)], lo, hi)
  {
    var own' := own[b := (i, NDIRECT + 1 + j)];
    forall o: Owner | IsPointer(T, o)
      ensures RefOk(after, T, 0, 0, own', o)
    {
      EntryRef(blocks, after, T, own, lo, hi, i, j, b, o);
    }
    forall x | x in own'
      ensures OwnerOk(after, T, 0, 0, own', lo, hi, x)
    {
      if x != b {
        assert OwnerOk(blocks, T, 0, 0, own, lo, hi, x);
        EntryRef(blocks, after, T, own, lo, hi, i, j, b, own[x]);
      } else {
        EntryRef(blocks, after, T, own, lo, hi, i, j, b, (i, NDIRECT + 1 + j));
      }
    }
  }

  lemma {:induction false} EntryRef(blocks: seq<Block>, after: seq<Block>, T: Inodes, own: map<nat, Owner>, lo: nat,
                                    hi: nat, i: nat, j: nat, b: U32, o: Owner)
    requires Owned(blocks, T, 0, 0, own, lo, hi) && 0 < lo <= b < hi <= |blocks| && i < |T| && j < NINDIRECT
             && b !in own
    requires var x := Indirect(T[i]);
             && x != 0 && x < |blocks| && AgreeBut(blocks, after, own, x)
             && Word(blocks[x], j) == 0 && after[x] == PutWords(blocks[x], j, [b])
    requires IsPointer(T, o)
    ensures Ref(after, T, 0, 0, o) == if o == (i, NDIRECT + 1 + j) then b else Ref(blocks, T, 0, 0, o)
    ensures RefOk(after, T, 0, 0, own[b := (i, NDIRECT + 1 + j)], o)
  {
    hide Word, PutWords;
    assert RefOk(blocks, T, 0, 0, own, o);
    IndirectOwned(blocks, T, 0, 0, own, lo, hi, o.0);
    IndirectOwned(blocks, T, 0, 0, own, lo, hi, i);
    if o.0 == i && o.1 > NDIRECT {
      WordPut(blocks[Indirect(T[i])], j, [b], o.1 - NDIRECT - 1);
    } else if o.0 != i {
      RefSame(blocks, after, T[o.0], o.1, 0);
    }
  }

  // ---- one block less ----

  /** A direct pointer is cleared and its block given up. */
  lemma {:induction false} OwnedDrop(blocks: seq<Block>, after: seq<Block>, T: Inodes, own: map<nat, Owner>, lo: nat,
                                     hi: nat, i: nat, s: nat)
    requires Owned(blocks, T, 0, 0, own, lo, hi) && AgreeBut(blocks, after, own, 0)
    requires i < |T| && s < NDIRECT && T[i].addrs[s] != 0
    ensures T[i].addrs[s] in own
    ensures Owned(after, T[i := WithAddr(T[i], s, 0)], 0, 0, own - {T[i].addrs[s]}, lo, hi)
  {
    var b := T[i].addrs[s];
    var T', own' := T[i := WithAddr(T[i], s, 0)], own - {b};
    assert RefOk(blocks, T, 0, 0, own, (i, s));
    assert AllOk(T');
    forall o: Owner | IsPointer(T', o)
      ensures Ref(after, T', 0, 0, o) == if o == (i, s) then 0 else Ref(blocks, T, 0, 0, o)
      ensures RefOk(after, T', 0, 0, own', o)
    {
      assert RefOk(blocks, T, 0, 0, own, o);
      IndirectOwned(blocks, T, 0, 0, own, lo, hi, o.0);
      RefSame(blocks, after, T[o.0], o.1, 0);
    }
    forall x | x in own'
      ensures OwnerOk(after, T', 0, 0, own', lo, hi, x)
    {
      assert OwnerOk(blocks, T, 0, 0, own, lo, hi, x);
    }
  }

  /** One more entry of the indirect block is given up, if it points anywhere. */
  lemma {:induction false} OwnedSkip(blocks: seq<Block>, after: seq<Block>, T: Inodes, own: map<nat, Owner>, lo: nat,
                                     hi: nat, i: nat, j: nat)
    requires Owned(blocks, T, i, j, own, lo, hi) && AgreeBut(blocks, after, own, 0) && i < |T| && j < NINDIRECT
    ensures var b := Ref(blocks, T, i, j, (i, NDIRECT + 1 + j));
            && (b != 0 ==> b in own)
            && Owned(after, T, i, j + 1, if b != 0 then own - {b} else own, lo, hi)
  {
    var b := Ref(blocks, T, i, j, (i, NDIRECT + 1 + j));
    var own' := if b != 0 then own - {b} else own;
    assert RefOk(blocks, T, i, j, own, (i, NDIRECT + 1 + j));
    forall o: Owner | IsPointer(T, o)
      ensures Ref(after, T, i, j + 1, o) == if o == (i, NDIRECT + 1 + j) then 0 else Ref(blocks, T, i, j, o)
      ensures RefOk(after, T, i, j + 1, own', o)
    {
      assert RefOk(blocks, T, i, j, own, o);
      IndirectOwned(blocks, T, i, j, own, lo, hi, o.0);
      RefSame(blocks, after, T[o.0], o.1, SkipOf(i, j + 1, o.0));
    }
    forall x | x in own'
      ensures OwnerOk(after, T, i, j + 1, own', lo, hi, x)
    {
      assert OwnerOk(blocks, T, i, j, own, lo, hi, x);
    }
  }

  /** With all its entries given up, the indirect block itself goes. */
  lemma {:induction false} OwnedDropIndirect(blocks: seq<Block>, after: seq<Block>, T: Inodes, own: map<nat, Owner>,
                                             lo: nat, hi: nat, i: nat)
    requires Owned(blocks, T, i, NINDIRECT, own, lo, hi) && AgreeBut(blocks, after, own, 0) && i < |T|
             && Indirect(T[i]) != 0
    ensures Indirect(T[i]) in own
    ensures Owned(after, T[i := WithAddr(T[i], NDIRECT, 0)], 0, 0, own - {Indirect(T[i])}, lo, hi)
  {
    var b := Indirect(T[i]);
    var T', own' := T[i := WithAddr(T[i], NDIRECT, 0)], own - {b};
    IndirectOwned(blocks, T, i, NINDIRECT, own, lo, hi, i);
    assert AllOk(T');
    forall o: Owner | IsPointer(T', o)
      ensures Ref(after, T', 0, 0, o) == if o == (i, NDIRECT) then 0 else Ref(blocks, T, i, NINDIRECT, o)
      ensures RefOk(after, T', 0, 0, own', o)
    {
      assert RefOk(blocks, T, i, NINDIRECT, own, o);
      IndirectOwned(blocks, T, i, NINDIRECT, own, lo, hi, o.0);
      RefSame(blocks, after, T[o.0], o.1, 0);
    }
    forall x | x in own'
      ensures OwnerOk(after, T', 0, 0, own', lo, hi, x)
    {
      assert OwnerOk(blocks, T, i, NINDIRECT, own, lo, hi, x);
    }
  }

  /** Writing into a block that is not an indirect block changes no pointer. */
  lemma {:induction false} OwnedWrite(blocks: seq<Block>, after: seq<Block>, T: Inodes, own: map<nat, Owner>, lo: nat,
                                      hi: nat, x: nat)
    requires Owned(blocks, T, 0, 0, own, lo, hi) && AgreeBut(blocks, after, own, x)
    requires x in own ==> own[x].1 != NDIRECT
    ensures Owned(after, T, 0, 0, own, lo, hi)
    ensures forall o: Owner :: IsPointer(T, o) ==> Ref(after, T, 0, 0, o) == Ref(blocks, T, 0, 0, o)
  {
    forall o: Owner | IsPointer(T, o)
      ensures Ref(after, T, 0, 0, o) == Ref(blocks, T, 0, 0, o)
      ensures RefOk(after, T, 0, 0, own, o)
    {
      assert RefOk(blocks, T, 0, 0, own, o);
      IndirectOwned(blocks, T, 0, 0, own, lo, hi, o.0);
      RefSame(blocks, after, T[o.0], o.1, 0);
    }
    forall y | y in own
      ensures OwnerOk(after, T, 0, 0, own, lo, hi, y)
    {
      assert OwnerOk(blocks, T, 0, 0, own, lo, hi, y);
    }
  }
}
