/** How many free blocks an operation on a file takes: one for every pointer on the way to its blocks
    that led nowhere before. */
module FsSpace {
  import opened Words
  import opened FsBlocks
  import opened FsOwnership
  import opened FsContent

  /** The pointers of inode i that lead somewhere. */
  function Slots(blocks: seq<Block>, T: Inodes, i: nat): set<nat>
    requires AllOk(T) && i < |T|
  {
    set s: nat | s < SLOTS && Ref(blocks, T, 0, 0, (i, s)) != 0
  }

  /** Pointer s is used to reach one of the blocks lo to hi of a file. */
  predicate OnPath(lo: nat, hi: nat, s: nat) {
    if s < NDIRECT then lo <= s < hi
    else if s == NDIRECT then lo < hi && NDIRECT < hi
    else lo < s <= hi
  }

  function Path(lo: nat, hi: nat): set<nat> {
    set s: nat | s < SLOTS && OnPath(lo, hi, s)
  }

  /** One block past the last that n bytes from off on touch. */
  function End(off: nat, n: nat): nat {
    if n == 0 then off / BSIZE else (off + n - 1) / BSIZE + 1
  }

  /** The pointers used to reach n bytes from off on. */
  function Range(off: nat, n: nat): set<nat> {
    Path(off / BSIZE, End(off, n))
  }

  /** The blocks that must be allocated before the pointers of p all lead somewhere. */
  function Needed(blocks: seq<Block>, T: Inodes, i: nat, p: set<nat>): nat
    requires AllOk(T) && i < |T|
  {
    |p - Slots(blocks, T, i)|
  }

  /** Either the pointers of p have been filled in, at one block each where necessary, or (not ok) fewer
      blocks than necessary have been taken. */
  ghost predicate Charged(ok: bool, b0: seq<Block>, T0: Inodes, own0: map<nat, Owner>, b1: seq<Block>, T1: Inodes,
                          own1: map<nat, Owner>, i: nat, p: set<nat>)
  {
    && AllOk(T0) && AllOk(T1) && i < |T0| && i < |T1|
    && if ok then
         Slots(b1, T1, i) == Slots(b0, T0, i) + p && |own1| == |own0| + Needed(b0, T0, i, p)
       else
         |own1| < |own0| + Needed(b0, T0, i, p)
  }

  // ---- counting ----

  lemma {:induction false} DisjointUnion(s: set<nat>, t: set<nat>)
    requires s !! t
    ensures |s + t| == |s| + |t|
  {
  }

  lemma {:induction false} SubsetSize(s: set<nat>, t: set<nat>)
    requires s <= t
    ensures |s| <= |t|
  {
    DisjointUnion(s, t - s);
    assert s + (t - s) == t;
  }

  lemma {:induction false} NeededJoin(b0: seq<Block>, T0: Inodes, b1: seq<Block>, T1: Inodes, i: nat, p: set<nat>,
                                      q: set<nat>)
    requires AllOk(T0) && AllOk(T1) && i < |T0| && i < |T1| && Slots(b1, T1, i) == Slots(b0, T0, i) + p
    ensures Needed(b0, T0, i, p + q) == Needed(b0, T0, i, p) + Needed(b1, T1, i, q)
  {
    hide Slots;
    var s := Slots(b0, T0, i);
    DisjointUnion(p - s, q - (s + p));
    assert (p + q) - s == (p - s) + (q - (s + p));
  }

  lemma {:induction false} ChargedNone(b: seq<Block>, T: Inodes, own: map<nat, Owner>, i: nat, p: set<nat>)
    requires AllOk(T) && i < |T| && p <= Slots(b, T, i)
    ensures Charged(true, b, T, own, b, T, own, i, p)
  {
    hide Slots;
    assert p - Slots(b, T, i) == {} && Slots(b, T, i) + p == Slots(b, T, i);
  }

  lemma {:induction false} ChargedTrans(ok: bool, b0: seq<Block>, T0: Inodes, own0: map<nat, Owner>, b1: seq<Block>,
                                        T1: Inodes, own1: map<nat, Owner>, b2: seq<Block>, T2: Inodes,
                                        own2: map<nat, Owner>, i: nat, p: set<nat>, q: set<nat>)
    requires Charged(true, b0, T0, own0, b1, T1, own1, i, p) && Charged(ok, b1, T1, own1, b2, T2, own2, i, q)
    ensures Charged(ok, b0, T0, own0, b2, T2, own2, i, p + q)
  {
    hide Slots, Needed;
    NeededJoin(b0, T0, b1, T1, i, p, q);
    assert ok ==> Slots(b2, T2, i) == Slots(b0, T0, i) + (p + q);
  }

  /** What was not enough for some pointers is not enough for more. */
  lemma {:induction false} ChargedMore(b0: seq<Block>, T0: Inodes, own0: map<nat, Owner>, b1: seq<Block>, T1: Inodes,
                                       own1: map<nat, Owner>, i: nat, p: set<nat>, q: set<nat>)
    requires Charged(false, b0, T0, own0, b1, T1, own1, i, p) && p <= q
    ensures Charged(false, b0, T0, own0, b1, T1, own1, i, q)
  {
    hide Slots;
    SubsetSize(p - Slots(b0, T0, i), q - Slots(b0, T0, i));
  }

  /** A step that moves no pointer and takes no block. */
  lemma {:induction false} ChargedKept(b0: seq<Block>, T0: Inodes, own0: map<nat, Owner>, b1: seq<Block>, T1: Inodes,
                                       b2: seq<Block>, T2: Inodes, own: map<nat, Owner>, i: nat, p: set<nat>)
    requires Charged(true, b0, T0, own0, b1, T1, own, i, p)
    requires AllOk(T2) && i < |T2| && Slots(b2, T2, i) == Slots(b1, T1, i)
    ensures Charged(true, b0, T0, own0, b2, T2, own, i, p)
  {
    hide Slots;
  }

  /** No block for the one pointer that needs it. */
  lemma {:induction false} ChargedFails(b: seq<Block>, T: Inodes, own: map<nat, Owner>, i: nat, s: nat)
    requires AllOk(T) && i < |T| && s !in Slots(b, T, i)
    ensures Charged(false, b, T, own, b, T, own, i, {s})
  {
    hide Slots;
    assert {s} - Slots(b, T, i) == {s};
  }

  // ---- the steps ----

  /** Pointer t leads somewhere after a step exactly if it did before or is s. */
  ghost predicate FilledAt(b0: seq<Block>, T0: Inodes, b1: seq<Block>, T1: Inodes, i: nat, s: nat, t: nat)
    requires AllOk(T0) && AllOk(T1) && i < |T0| && i < |T1|
  {
    t in Slots(b1, T1, i) <==> t == s || t in Slots(b0, T0, i)
  }

  lemma {:induction false} OneFilled(b0: seq<Block>, T0: Inodes, own: map<nat, Owner>, b1: seq<Block>, T1: Inodes,
                                     i: nat, s: nat, b: nat, o: Owner)
    requires AllOk(T0) && AllOk(T1) && i < |T0| && i < |T1| && s < SLOTS && b !in own
    requires s !in Slots(b0, T0, i) && forall t: nat :: t < SLOTS ==> FilledAt(b0, T0, b1, T1, i, s, t)
    ensures Charged(true, b0, T0, own, b1, T1, own[b := o], i, {s})
  {
    assert Slots(b1, T1, i) == Slots(b0, T0, i) + {s} by {
      forall t: nat | t in Slots(b1, T1, i) || t in Slots(b0, T0, i) + {s}
        ensures t in Slots(b1, T1, i) && t in Slots(b0, T0, i) + {s}
      {
        assert FilledAt(b0, T0, b1, T1, i, s, t);
      }
    }
    hide Slots;
    assert {s} - Slots(b0, T0, i) == {s};
  }

  lemma {:induction false} ChargedAddr(blocks: seq<Block>, after: seq<Block>, T: Inodes, own: map<nat, Owner>, lo: nat,
                                       hi: nat, i: nat, s: nat, b: nat)
    requires Owned(blocks, T, 0, 0, own, lo, hi) && AgreeBut(blocks, after, own, 0) && 0 < lo <= b < hi <= |blocks|
    requires i < |T| && s <= NDIRECT && T[i].addrs[s] == 0 && b !in own && Blank(after[b]) && b < W32
    ensures Charged(true, blocks, T, own, after, T[i := WithAddr(T[i], s, b)], own[b := (i, s)], i, {s})
  {
    assert AllOk(T) && DinodeOk(T[i]);
    hide Owned, AgreeBut, Blank;
    var T' := T[i := WithAddr(T[i], s, b)];
    AddrsRef(blocks, after, T, own, lo, hi, i, s, b, (i, s));
    forall t: nat | t < SLOTS
      ensures FilledAt(blocks, T, after, T', i, s, t)
    {
      AddrsRef(blocks, after, T, own, lo, hi, i, s, b, (i, t));
    }
    OneFilled(blocks, T, own, after, T', i, s, b, (i, s));
  }

  lemma {:induction false} ChargedEntry(blocks: seq<Block>, after: seq<Block>, T: Inodes, own: map<nat, Owner>, lo: nat,
                                        hi: nat, i: nat, j: nat, b: U32)
    requires Owned(blocks, T, 0, 0, own, lo, hi) && 0 < lo <= b < hi <= |blocks| && i < |T| && j < NINDIRECT
             && b !in own
    requires var x := Indirect(T[i]);
             && x != 0 && x < |blocks| && AgreeBut(blocks, after, own, x)
             && Word(blocks[x], j) == 0 && after[x] == PutWords(blocks[x], j, [b])
    ensures Charged(true, blocks, T, own, after, T, own[b := (i, NDIRECT + 1 + j)], i, {NDIRECT + 1 + j})
  {
    assert AllOk(T);
    hide Owned, AgreeBut, PutWords, Word, Charged;
    var s := NDIRECT + 1 + j;
    forall t: nat | t < SLOTS
      ensures FilledAt(blocks, T, after, T, i, s, t)
    {
      EntryRef(blocks, after, T, own, lo, hi, i, j, b, (i, t));
    }
    OneFilled(blocks, T, own, after, T, i, s, b, (i, s));
  }

  /** Writing into a block that is not an indirect block. */
  lemma {:induction false} SlotsKept(blocks: seq<Block>, after: seq<Block>, T: Inodes, own: map<nat, Owner>, lo: nat,
                                     hi: nat, x: nat, i: nat)
    requires Owned(blocks, T, 0, 0, own, lo, hi) && AgreeBut(blocks, after, own, x) && i < |T|
    requires x in own ==> own[x].1 != NDIRECT
    ensures AllOk(T) && Slots(after, T, i) == Slots(blocks, T, i)
  {
    assert AllOk(T);
    OwnedWrite(blocks, after, T, own, lo, hi, x);
    hide Owned, AgreeBut;
    forall t: nat | t < SLOTS
      ensures t in Slots(after, T, i) <==> t in Slots(blocks, T, i)
    {
      var o: Owner := (i, t);
      assert IsPointer(T, o);
    }
  }

  /** The pointers of an inode are in its addrs and its indirect block. */
  lemma {:induction false} SlotsOf(blocks: seq<Block>, T: Inodes, T': Inodes, i: nat)
    requires AllOk(T) && AllOk(T') && i < |T| && i < |T'| && T'[i].addrs == T[i].addrs
    ensures Slots(blocks, T', i) == Slots(blocks, T, i)
  {
  }

  // ---- ranges ----

  lemma {:induction false} PathJoin(lo: nat, m: nat, l: nat, hi: nat)
    requires lo <= l <= m <= hi
    ensures Path(lo, m) + Path(l, hi) == Path(lo, hi)
  {
    forall s: nat | s < SLOTS
      ensures OnPath(lo, m, s) || OnPath(l, hi, s) <==> OnPath(lo, hi, s)
    {
    }
  }

  lemma {:induction false} RangeJoin(off: nat, k: nat, n: nat)
    ensures Range(off, k) + Range(off + k, n) == Range(off, k + n)
  {
    assert off / BSIZE <= (off + k) / BSIZE <= End(off + k, n);
    assert End(off, k + n) == if n == 0 then End(off, k) else End(off + k, n);
    assert k > 0 ==> (off + k) / BSIZE <= End(off, k) <= (off + k) / BSIZE + 1;
    if n == 0 {
      assert Path((off + k) / BSIZE, (off + k) / BSIZE) == {};
    } else {
      PathJoin(off / BSIZE, End(off, k), (off + k) / BSIZE, End(off + k, n));
    }
  }

  lemma {:induction false} RangeMore(off: nat, k: nat, n: nat)
    requires k <= n
    ensures Range(off, k) <= Range(off, n)
  {
    RangeJoin(off, k, n - k);
  }

  lemma {:induction false} RangeBlock(off: nat, m: nat)
    requires 0 < m && off % BSIZE + m <= BSIZE
    ensures Range(off, m) == Path(off / BSIZE, off / BSIZE + 1)
  {
  }

  lemma {:induction false} RangeNone(off: nat)
    ensures Range(off, 0) == {}
  {
  }

  /** The pointers to one block. */
  lemma {:induction false} PathOne(bn: nat)
    requires bn < MAXFILE
    ensures Path(bn, bn + 1) == if bn < NDIRECT then {bn} else {NDIRECT, bn + 1}
  {
  }

  /** Where a block is found, so is the way to it. */
  lemma {:induction false} PathFound(blocks: seq<Block>, T: Inodes, i: nat, bn: nat)
    requires AllOk(T) && i < |T| && bn < MAXFILE && BlockFor(blocks, T, i, bn) != 0
    ensures Path(bn, bn + 1) <= Slots(blocks, T, i)
  {
    PathOne(bn);
    hide Path, Word;
    assert SlotOf(bn) in Slots(blocks, T, i);
    assert bn >= NDIRECT ==> NDIRECT in Slots(blocks, T, i);
  }
}
