/** Blocks and the disk under the file system. A block is BSIZE = 512 bytes, seen as 128 words. */
module Disk {
  const WORDS: nat := 128
  type Block = b: seq<int> | |b| == WORDS witness seq(WORDS, _ => 0)

  /** One sector write, the unit that a crash cannot tear. */
  datatype Write = Write(sector: nat, data: Block)

  type Sectors = seq<Block>

  function Apply(disk: Sectors, ws: seq<Write>): (r: Sectors)
    ensures |r| == |disk|
    decreases |ws|
  {
    if ws == [] then disk
    else
      var d := Apply(disk, ws[..|ws| - 1]);
      var w := ws[|ws| - 1];
      if w.sector < |d| then d[w.sector := w.data] else d
  }

  lemma {:induction false} ApplyConcat(disk: Sectors, a: seq<Write>, b: seq<Write>)
    ensures Apply(disk, a + b) == Apply(Apply(disk, a), b)
    decreases |b|
  {
    if b == [] {
      assert a + b == a;
    } else {
      var b' := b[..|b| - 1];
      assert (a + b)[..|a + b| - 1] == a + b';
      ApplyConcat(disk, a, b');
    }
  }

  /** A sector no write names keeps its content. */
  lemma {:induction false} ApplyElsewhere(disk: Sectors, ws: seq<Write>, s: nat)
    requires s < |disk| && forall w :: w in ws ==> w.sector != s
    ensures Apply(disk, ws)[s] == disk[s]
    decreases |ws|
  {
    if ws != [] {
      ApplyElsewhere(disk, ws[..|ws| - 1], s);
    }
  }
}

/** The buffer cache of kernel/bio.c over the disk of kernel/memide.c. Buffers are numbered
    0..NBUF-1; HEAD is the list head, and prev/next hold such numbers. */
module BufferCache {
  import opened Disk

  const NBUF: nat := 10
  const HEAD: nat := NBUF
  const ROOTDEV: int := 1

  datatype Buf = Buf(busy: bool, valid: bool, dirty: bool, dev: int, sector: nat, prev: nat, next: nat, data: Block)

  datatype Access = Buffer(b: nat) | Sleeps(b: nat) | Panics

  // ---- the LRU ring ----

  ghost predicate Distinct(s: seq<nat>) {
    forall i, j :: 0 <= i < j < |s| ==> s[i] != s[j]
  }

  /** Walking next from the head visits `ring` in order and returns; prev walks it backwards. */
  ghost predicate Linked(bufs: seq<Buf>, ring: seq<nat>) {
    && |bufs| == NBUF + 1
    && (forall i :: 0 <= i < |ring| ==> ring[i] < NBUF)
    && Distinct(ring)
    && forall i :: 0 <= i <= |ring| ==> LinkAt(bufs, [HEAD] + ring + [HEAD], i)
  }

  /** Neighbours at positions i and i + 1 of the walk point at each other. */
  ghost predicate LinkAt(bufs: seq<Buf>, full: seq<nat>, i: nat) {
    && i + 1 < |full| && full[i] < |bufs| && full[i + 1] < |bufs|
    && bufs[full[i]].next == full[i + 1] && bufs[full[i + 1]].prev == full[i]
  }

  /** The ring is a permutation of all buffers. */
  ghost predicate Ring(bufs: seq<Buf>, ring: seq<nat>) {
    && Linked(bufs, ring) && |ring| == NBUF
    && forall b :: 0 <= b < NBUF ==> b in ring
  }

  function Without(s: seq<nat>, p: nat): seq<nat>
    requires p < |s|
  {
    s[..p] + s[p + 1..]
  }

  function SetPrev(bufs: seq<Buf>, b: nat, p: nat): (r: seq<Buf>)
    requires b < |bufs|
    ensures |r| == |bufs|
  {
    bufs[b := bufs[b].(prev := p)]
  }

  function SetNext(bufs: seq<Buf>, b: nat, n: nat): (r: seq<Buf>)
    requires b < |bufs|
    ensures |r| == |bufs|
  {
    bufs[b := bufs[b].(next := n)]
  }

  /** b->next->prev = b->prev; b->prev->next = b->next (bio.c:132-133). */
  function Unlink(bufs: seq<Buf>, b: nat): seq<Buf>
    requires b < |bufs| && bufs[b].next < |bufs| && bufs[b].prev < |bufs|
  {
    var x := SetPrev(bufs, bufs[b].next, bufs[b].prev);
    SetNext(x, bufs[b].prev, bufs[b].next)
  }

  /** b is put right after the head (bio.c:134-137 and 50-54). */
  function PushFront(bufs: seq<Buf>, b: nat): seq<Buf>
    requires b < |bufs| && HEAD < |bufs| && bufs[HEAD].next < |bufs|
  {
    var first := bufs[HEAD].next;
    var x := SetPrev(SetNext(bufs, b, first), b, HEAD);
    SetNext(SetPrev(x, first, b), HEAD, b)
  }

  /** Everything about a buffer but its place in the ring. */
  ghost predicate SameBut(b: Buf, c: Buf) {
    b == c.(prev := b.prev, next := b.next)
  }

  ghost predicate OnlyLinksChanged(bufs: seq<Buf>, bufs': seq<Buf>) {
    |bufs'| == |bufs| && forall i :: 0 <= i < |bufs| ==> SameBut(bufs'[i], bufs[i])
  }

  lemma {:induction false} Neighbours(bufs: seq<Buf>, ring: seq<nat>, p: nat)
    requires Linked(bufs, ring) && p < |ring|
    ensures var full := [HEAD] + ring + [HEAD];
            bufs[ring[p]].next == full[p + 2] < |bufs| && bufs[ring[p]].prev == full[p] < |bufs|
  {
    var full := [HEAD] + ring + [HEAD];
    assert full[p + 1] == ring[p];
    assert LinkAt(bufs, full, p) && LinkAt(bufs, full, p + 1);
  }

  lemma {:induction false} UnlinkRemoves(bufs: seq<Buf>, ring: seq<nat>, p: nat)
    requires Linked(bufs, ring) && p < |ring|
    ensures bufs[ring[p]].next < |bufs| && bufs[ring[p]].prev < |bufs|
    ensures Linked(Unlink(bufs, ring[p]), Without(ring, p))
    ensures OnlyLinksChanged(bufs, Unlink(bufs, ring[p]))
  {
    Neighbours(bufs, ring, p);
    var full, bufs' := [HEAD] + ring + [HEAD], Unlink(bufs, ring[p]);
    var full' := [HEAD] + Without(ring, p) + [HEAD];
    forall i | 0 <= i < |ring|
      ensures LinkAt(bufs', full', i)
    {
      assert full' == Without(full, p + 1);
      if i < p {
        assert LinkAt(bufs, full, i);
      } else if i > p {
        assert LinkAt(bufs, full, i + 1);
      }
    }
  }

  lemma {:induction false} PushFrontAdds(bufs: seq<Buf>, ring: seq<nat>, b: nat)
    requires Linked(bufs, ring) && b < NBUF && b !in ring
    ensures bufs[HEAD].next < |bufs|
    ensures Linked(PushFront(bufs, b), [b] + ring)
    ensures OnlyLinksChanged(bufs, PushFront(bufs, b))
  {
    var full := [HEAD] + ring + [HEAD];
    assert LinkAt(bufs, full, 0);
    var full', bufs' := [HEAD] + ([b] + ring) + [HEAD], PushFront(bufs, b);
    forall i | 0 <= i <= |ring| + 1
      ensures LinkAt(bufs', full', i)
    {
      assert full' == [HEAD, b] + full[1..];
      if i >= 2 {
        assert LinkAt(bufs, full, i - 1);
      }
    }
  }

  // ---- what the operations do to the buffers ----

  predicate Holds(buf: Buf, dev: int, sector: nat) {
    buf.dev == dev && buf.sector == sector
  }

  predicate Recyclable(buf: Buf) {
    !buf.busy && !buf.dirty
  }

  /** Buffer b can be recycled, and every less recently used one cannot. */
  ghost predicate LeastRecent(bufs: seq<Buf>, ring: seq<nat>, b: nat) {
    && b < |bufs| && Recyclable(bufs[b])
    && exists p :: 0 <= p < |ring| && ring[p] == b
                   && forall k :: p < k < |ring| ==> ring[k] < |bufs| && !Recyclable(bufs[ring[k]])
  }

  /** At most one buffer caches a sector (device -1 marks a buffer never used). */
  ghost predicate AtMostOne(bufs: seq<Buf>)
    requires |bufs| == NBUF + 1
  {
    forall i, j :: 0 <= i < j < NBUF && bufs[i].dev != -1 ==> !Holds(bufs[j], bufs[i].dev, bufs[i].sector)
  }

  ghost predicate Absent(bufs: seq<Buf>, dev: int, sector: nat)
    requires |bufs| == NBUF + 1
  {
    forall i :: 0 <= i < NBUF ==> !Holds(bufs[i], dev, sector)
  }

  function Claim(bufs: seq<Buf>, b: nat): seq<Buf>
    requires b < |bufs|
  {
    bufs[b := bufs[b].(busy := true)]
  }

  function Recycle(bufs: seq<Buf>, b: nat, dev: int, sector: nat): seq<Buf>
    requires b < |bufs|
  {
    bufs[b := bufs[b].(dev := dev, sector := sector, busy := true, valid := false, dirty := false)]
  }

  /** A recycled buffer after iderw has read the sector into it. */
  function Fetched(bufs: seq<Buf>, b: nat, dev: int, sector: nat, data: Block): seq<Buf>
    requires b < |bufs|
  {
    bufs[b := bufs[b].(dev := dev, sector := sector, busy := true, valid := true, dirty := false, data := data)]
  }

  /** Only a busy buffer may lack the data of its sector, and then it has nothing to write. */
  predicate Filled(buf: Buf) {
    (buf.valid || buf.busy || buf.dev == -1) && (buf.dirty ==> buf.valid)
  }

  lemma {:induction false} ForeignFieldsKeepRing(bufs: seq<Buf>, ring: seq<nat>, bufs': seq<Buf>)
    requires Ring(bufs, ring) && |bufs'| == |bufs|
    requires forall i :: 0 <= i < |bufs| ==> bufs'[i].prev == bufs[i].prev && bufs'[i].next == bufs[i].next
    ensures Ring(bufs', ring)
  {
    forall i | 0 <= i <= |ring|
      ensures LinkAt(bufs', [HEAD] + ring + [HEAD], i)
    {
      assert LinkAt(bufs, [HEAD] + ring + [HEAD], i);
    }
  }

  predicate Unused(buf: Buf) {
    buf.dev == -1 && !buf.busy && !buf.valid && !buf.dirty
  }

  /** One pass of the loop in binit: buffer b joins the front of the ring. */
  lemma {:induction false} InitStep(bs: seq<Buf>, r: seq<nat>, b: nat)
    requires Linked(bs, r) && b < NBUF && b !in r
    ensures bs[HEAD].next < |bs|
    ensures var bs' := PushFront(bs, b)[b := PushFront(bs, b)[b].(dev := -1)];
            Linked(bs', [b] + r)
            && forall k :: 0 <= k < |bs| ==> SameBut(bs'[k], if k == b then bs[k].(dev := -1) else bs[k])
  {
    PushFrontAdds(bs, r, b);
    var x := PushFront(bs, b);
    var bs' := x[b := x[b].(dev := -1)];
    forall i | 0 <= i <= |r| + 1
      ensures LinkAt(bs', [HEAD] + ([b] + r) + [HEAD], i)
    {
      assert LinkAt(x, [HEAD] + ([b] + r) + [HEAD], i);
    }
    assert forall k :: 0 <= k < |bs| ==> SameBut(x[k], bs[k]);
  }

  method BuildRing() returns (bs: seq<Buf>, ghost r: seq<nat>)
    ensures Ring(bs, r)
    ensures forall b :: 0 <= b < NBUF ==> Unused(bs[b])
  {
    var zero: Block := seq(WORDS, _ => 0);
    bs := seq(NBUF + 1, _ => Buf(false, false, false, 0, 0, HEAD, HEAD, zero));
    r := [];
    assert [HEAD] + r + [HEAD] == [HEAD, HEAD];
    assert Linked(bs, r);
    hide Linked;
    for b := 0 to NBUF
      invariant |bs| == NBUF + 1 && Linked(bs, r) && |r| == b
      invariant forall k :: 0 <= k < b ==> k in r && bs[k].dev == -1
      invariant forall k :: k in r ==> k < b
      invariant forall k :: 0 <= k < NBUF ==> !bs[k].busy && !bs[k].valid && !bs[k].dirty
    {
      InitStep(bs, r, b);
      ghost var before := bs;
      bs := PushFront(bs, b);
      bs := bs[b := bs[b].(dev := -1)];
      assert forall k :: 0 <= k < |bs| ==> SameBut(bs[k], if k == b then before[k].(dev := -1) else before[k]);
      assert forall k :: k in [b] + r <==> k == b || k in r;
      r := [b] + r;
    }
  }

  class Cache {
    var bufs: seq<Buf>
    var disk: Sectors
    ghost var ring: seq<nat>        // most recently used first
    ghost var writes: seq<Write>    // every sector write so far, in order

    ghost predicate Valid()
      reads this
    {
      && Ring(bufs, ring) && AtMostOne(bufs)
      && forall b :: 0 <= b < NBUF ==> Filled(bufs[b])
    }

    /** binit (bio.c:39-56), on a disk with the given contents. */
    constructor (contents: Sectors)
      ensures Valid() && disk == contents && writes == []
      ensures forall b :: 0 <= b < NBUF ==> Unused(bufs[b])
    {
      var bs, r := BuildRing();
      bufs, ring, disk, writes := bs, r, contents, [];
    }

    /** The first scan (bio.c:70-81): is the sector cached? */
    method Lookup(dev: int, sector: nat) returns (b: nat)
      requires Valid()
      ensures b <= HEAD
      ensures b < HEAD ==> Holds(bufs[b], dev, sector)
      ensures b == HEAD ==> Absent(bufs, dev, sector)
    {
      ghost var full := [HEAD] + ring + [HEAD];
      assert LinkAt(bufs, full, 0);
      b := bufs[HEAD].next;
      ghost var i := 1;
      while b != HEAD
        invariant 1 <= i <= NBUF + 1 && b == full[i]
        invariant forall k :: 1 <= k < i ==> !Holds(bufs[full[k]], dev, sector)
        decreases NBUF + 1 - i
      {
        assert i <= NBUF;
        if bufs[b].dev == dev && bufs[b].sector == sector {
          return;
        }
        assert LinkAt(bufs, full, i);
        b := bufs[b].next;
        i := i + 1;
      }
      assert i == NBUF + 1 by {
        assert forall k :: 1 <= k <= NBUF ==> full[k] == ring[k - 1] < NBUF;
      }
      forall k | 0 <= k < NBUF
        ensures !Holds(bufs[k], dev, sector)
      {
        assert k in ring;
        var p :| 0 <= p < NBUF && ring[p] == k;
        assert full[p + 1] == k;
      }
    }

    /** The second scan (bio.c:84-92): from the least recently used end, the first buffer that
        is neither busy nor dirty. */
    method Victim() returns (b: nat)
      requires Valid()
      ensures b <= HEAD
      ensures b < HEAD ==> LeastRecent(bufs, ring, b)
      ensures b == HEAD ==> forall k :: 0 <= k < NBUF ==> !Recyclable(bufs[k])
    {
      ghost var full := [HEAD] + ring + [HEAD];
      assert LinkAt(bufs, full, NBUF);
      b := bufs[HEAD].prev;
      ghost var i := NBUF;
      while b != HEAD
        invariant 0 <= i <= NBUF && b == full[i]
        invariant forall k :: i <= k < NBUF ==> !Recyclable(bufs[ring[k]])
        decreases i
      {
        assert i > 0 && b == ring[i - 1];
        if !bufs[b].busy && !bufs[b].dirty {
          return;
        }
        assert LinkAt(bufs, full, i - 1);
        b := bufs[b].prev;
        i := i - 1;
      }
      assert i == 0 by {
        assert forall k :: 1 <= k <= NBUF ==> full[k] == ring[k - 1] < NBUF;
      }
      forall k | 0 <= k < NBUF
        ensures !Recyclable(bufs[k])
      {
        assert k in ring;
        var p :| 0 <= p < NBUF && ring[p] == k;
      }
    }

    /** bget (bio.c:62-95), up to the point where it would sleep or panic. */
    method Bget(dev: int, sector: nat) returns (r: Access)
      requires Valid()
      modifies this`bufs
      ensures Valid()
      ensures match r
              case Buffer(b) =>
                b < NBUF && !old(bufs)[b].busy
                && (if Holds(old(bufs)[b], dev, sector) then bufs == Claim(old(bufs), b)
                    else Absent(old(bufs), dev, sector) && LeastRecent(old(bufs), ring, b)
                         && bufs == Recycle(old(bufs), b, dev, sector))
              case Sleeps(b) => b < NBUF && Holds(bufs[b], dev, sector) && bufs[b].busy && bufs == old(bufs)
              case Panics =>
                Absent(bufs, dev, sector) && bufs == old(bufs)
                && forall k :: 0 <= k < NBUF ==> !Recyclable(bufs[k])
    {
      var b := Lookup(dev, sector);
      ghost var was := bufs;
      if b != HEAD {
        if bufs[b].busy {
          return Sleeps(b);
        }
        bufs := bufs[b := bufs[b].(busy := true)];
        ForeignFieldsKeepRing(was, ring, bufs);
        return Buffer(b);
      }
      b := Victim();
      if b == HEAD {
        return Panics;
      }
      bufs := bufs[b := bufs[b].(dev := dev, sector := sector, busy := true, valid := false, dirty := false)];
      ForeignFieldsKeepRing(was, ring, bufs);
      return Buffer(b);
    }

    /** iderw (memide.c:35-64): write a dirty buffer, else read an invalid one. False is a panic. */
    method Iderw(b: nat) returns (ok: bool)
      requires Valid() && b < NBUF
      modifies this`bufs, this`disk, this`writes
      ensures Valid()
      ensures ok <==> old(bufs[b].busy && (bufs[b].dirty || !bufs[b].valid) && bufs[b].dev == ROOTDEV
                          && bufs[b].sector < |disk|)
      ensures !ok ==> bufs == old(bufs) && disk == old(disk) && writes == old(writes)
      ensures ok && old(bufs[b].dirty) ==>
                bufs == old(bufs[b := bufs[b].(dirty := false, valid := true)])
                && disk == old(disk[bufs[b].sector := bufs[b].data])
                && writes == old(writes + [Write(bufs[b].sector, bufs[b].data)])
      ensures ok && !old(bufs[b].dirty) ==>
                bufs == old(bufs[b := bufs[b].(data := disk[bufs[b].sector], valid := true)])
                && disk == old(disk) && writes == old(writes)
    {
      ghost var was := bufs;
      var buf := bufs[b];
      if !buf.busy || (buf.valid && !buf.dirty) || buf.dev != ROOTDEV || buf.sector >= |disk| {
        return false;
      }
      if buf.dirty {
        disk := disk[buf.sector := buf.data];
        writes := writes + [Write(buf.sector, buf.data)];
        bufs := bufs[b := buf.(dirty := false, valid := true)];
      } else {
        bufs := bufs[b := buf.(data := disk[buf.sector], valid := true)];
      }
      ForeignFieldsKeepRing(was, ring, bufs);
      return true;
    }

    /** bread (bio.c:99-109). A panic may leave a buffer claimed, but never touches the disk. */
    method Bread(dev: int, sector: nat) returns (r: Access)
      requires Valid()
      modifies this`bufs, this`disk, this`writes
      ensures Valid() && disk == old(disk) && writes == old(writes)
      ensures r.Buffer? ==>
                r.b < NBUF && !old(bufs)[r.b].busy
                && (if Holds(old(bufs)[r.b], dev, sector) then bufs == Claim(old(bufs), r.b)
                    else Absent(old(bufs), dev, sector) && LeastRecent(old(bufs), ring, r.b)
                         && dev == ROOTDEV && sector < |disk|
                         && bufs == Fetched(old(bufs), r.b, dev, sector, disk[sector]))
      ensures r.Buffer? ==> bufs[r.b].valid
      ensures r.Sleeps? ==> r.b < NBUF && Holds(bufs[r.b], dev, sector) && bufs[r.b].busy && bufs == old(bufs)
      ensures r.Panics? && dev == ROOTDEV ==>
                Absent(old(bufs), dev, sector)
                && (sector < |disk| ==> forall k :: 0 <= k < NBUF ==> !Recyclable(old(bufs)[k]))
    {
      r := Bget(dev, sector);
      if r.Buffer? && !bufs[r.b].valid {
        var ok := Iderw(r.b);
        if !ok {
          return Panics;
        }
      }
    }

    /** bwrite (bio.c:112-120). */
    method Bwrite(b: nat) returns (ok: bool)
      requires Valid() && b < NBUF && bufs[b].valid
      modifies this`bufs, this`disk, this`writes
      ensures Valid()
      ensures ok <==> old(bufs[b].busy && bufs[b].dev == ROOTDEV && bufs[b].sector < |disk|)
      ensures ok ==> bufs == old(bufs[b := bufs[b].(dirty := false, valid := true)])
                     && disk == old(disk[bufs[b].sector := bufs[b].data])
                     && writes == old(writes + [Write(bufs[b].sector, bufs[b].data)])
      ensures !ok ==> disk == old(disk) && writes == old(writes)
    {
      if !bufs[b].busy {
        return false;
      }
      ghost var was := bufs;
      bufs := bufs[b := bufs[b].(dirty := true)];
      ForeignFieldsKeepRing(was, ring, bufs);
      ok := Iderw(b);
    }

    /** A holder of the buffer changes its data (memmove into b->data). */
    method SetData(b: nat, data: Block)
      requires Valid() && b < NBUF && bufs[b].busy
      modifies this`bufs
      ensures Valid() && bufs == old(bufs[b := bufs[b].(data := data)])
    {
      ghost var was := bufs;
      bufs := bufs[b := bufs[b].(data := data)];
      ForeignFieldsKeepRing(was, ring, bufs);
    }

    /** b->flags |= B_DIRTY, which keeps the buffer from being recycled (log.c:193). */
    method Pin(b: nat)
      requires Valid() && b < NBUF && bufs[b].valid
      modifies this`bufs
      ensures Valid() && bufs == old(bufs[b := bufs[b].(dirty := true)])
    {
      ghost var was := bufs;
      bufs := bufs[b := bufs[b].(dirty := true)];
      ForeignFieldsKeepRing(was, ring, bufs);
    }

    /** brelse (bio.c:125-143): the buffer becomes the most recently used one. */
    method Brelse(b: nat) returns (ok: bool)
      requires Valid() && b < NBUF && bufs[b].valid
      modifies this`bufs, this`ring
      ensures Valid()
      ensures ok <==> old(bufs[b].busy)
      ensures !ok ==> bufs == old(bufs) && ring == old(ring)
      ensures ok ==> OnlyLinksChanged(old(bufs[b := bufs[b].(busy := false)]), bufs)
      ensures ok ==> exists p :: 0 <= p < NBUF && old(ring)[p] == b && ring == [b] + Without(old(ring), p)
    {
      if !bufs[b].busy {
        return false;
      }
      hide Ring, OnlyLinksChanged, Unlink, PushFront;
      ghost var was := bufs;
      ghost var p := RingPlace(bufs, ring, b);
      MoveToFront(bufs, ring, p);
      bufs := Unlink(bufs, b);
      bufs := PushFront(bufs, b);
      bufs := bufs[b := bufs[b].(busy := false)];
      ring := [b] + Without(ring, p);
      LinksKeepContents(was[b := was[b].(busy := false)], bufs);
      return true;
    }
  }

  lemma {:induction false} RingPlace(bufs: seq<Buf>, ring: seq<nat>, b: nat) returns (p: nat)
    requires Ring(bufs, ring) && b < NBUF
    ensures p < NBUF == |ring| && ring[p] == b && |bufs| == NBUF + 1
  {
    assert b in ring;
    p :| 0 <= p < NBUF && ring[p] == b;
  }

  lemma {:induction false} LinksKeepContents(bufs: seq<Buf>, bufs': seq<Buf>)
    requires |bufs| == NBUF + 1 && OnlyLinksChanged(bufs, bufs')
    requires AtMostOne(bufs) && forall b :: 0 <= b < NBUF ==> Filled(bufs[b])
    ensures AtMostOne(bufs') && forall b :: 0 <= b < NBUF ==> Filled(bufs'[b])
  {
    assert forall i :: 0 <= i < NBUF ==> SameBut(bufs'[i], bufs[i]);
  }

  lemma {:induction false} MoveToFront(bufs: seq<Buf>, ring: seq<nat>, p: nat)
    requires Ring(bufs, ring) && p < NBUF
    ensures var b := ring[p];
            bufs[b].next < |bufs| && bufs[b].prev < |bufs|
            && |Unlink(bufs, b)| == |bufs| && Unlink(bufs, b)[HEAD].next < |bufs|
            && var x := PushFront(Unlink(bufs, b), b);
               |x| == |bufs| && Ring(x[b := x[b].(busy := false)], [b] + Without(ring, p))
               && OnlyLinksChanged(bufs[b := bufs[b].(busy := false)], x[b := x[b].(busy := false)])
  {
    var b, rest := ring[p], Without(ring, p);
    UnlinkRemoves(bufs, ring, p);
    assert b !in rest;
    var x := Unlink(bufs, b);
    PushFrontAdds(x, rest, b);
    var y := PushFront(x, b);
    forall c | 0 <= c < NBUF
      ensures c in [b] + rest
    {
      var k := RingPlace(bufs, ring, c);
      if k < p {
        assert rest[k] == c;
      } else if k > p {
        assert rest[k - 1] == c;
      }
    }
    assert forall i :: 0 <= i < |bufs| ==> SameBut(x[i], bufs[i]) && SameBut(y[i], x[i]);
    ForeignFieldsKeepRing(y, [b] + rest, y[b := y[b].(busy := false)]);
  }

  // ---- the cache and the pending blocks are one map from sectors to blocks ----

  /** What a reader of sector s must see: the last logged data, else what is on disk. */
  function Current(disk: Sectors, pend: map<nat, Block>, s: nat): Block
    requires s < |disk|
  {
    if s in pend then pend[s] else disk[s]
  }

  /** A buffer at rest holds the current content of its sector; pinned exactly if logged. */
  ghost predicate Settled(buf: Buf, disk: Sectors, pend: map<nat, Block>) {
    if buf.dev == -1 then !buf.dirty
    else
      && buf.dev == ROOTDEV && buf.sector < |disk|
      && (buf.dirty <==> buf.sector in pend)
      && (!buf.busy ==> buf.data == Current(disk, pend, buf.sector))
  }

  /** Every buffer is settled, and every logged sector is still cached. */
  ghost predicate Coherent(bufs: seq<Buf>, disk: Sectors, pend: map<nat, Block>) {
    && |bufs| == NBUF + 1
    && (forall b :: 0 <= b < NBUF ==> Settled(bufs[b], disk, pend))
    && (forall s :: s in pend ==> s < |disk| && exists b :: 0 <= b < NBUF && Holds(bufs[b], ROOTDEV, s))
  }

  /** The data a holder may release: what every reader must see. */
  ghost predicate Releasable(buf: Buf, disk: Sectors, pend: map<nat, Block>) {
    buf.dev == ROOTDEV && buf.sector < |disk| && buf.data == Current(disk, pend, buf.sector)
  }

  lemma {:induction false} ClaimCoherent(bufs: seq<Buf>, disk: Sectors, pend: map<nat, Block>, b: nat, sector: nat)
    requires Coherent(bufs, disk, pend) && b < NBUF && !bufs[b].busy && Holds(bufs[b], ROOTDEV, sector)
    ensures Coherent(Claim(bufs, b), disk, pend)
    ensures Releasable(Claim(bufs, b)[b], disk, pend)
  {
    assert Settled(bufs[b], disk, pend);
    assert forall c :: 0 <= c < NBUF ==> Holds(Claim(bufs, b)[c], bufs[c].dev, bufs[c].sector);
  }

  lemma {:induction false} FetchCoherent(bufs: seq<Buf>, disk: Sectors, pend: map<nat, Block>, b: nat, sector: nat)
    requires Coherent(bufs, disk, pend) && b < NBUF && Recyclable(bufs[b])
    requires Absent(bufs, ROOTDEV, sector) && sector < |disk|
    ensures Coherent(Fetched(bufs, b, ROOTDEV, sector, disk[sector]), disk, pend)
    ensures Releasable(Fetched(bufs, b, ROOTDEV, sector, disk[sector])[b], disk, pend)
  {
    var bufs' := Fetched(bufs, b, ROOTDEV, sector, disk[sector]);
    assert Settled(bufs[b], disk, pend);
    assert sector !in pend;
    forall s | s in pend
      ensures exists c :: 0 <= c < NBUF && Holds(bufs'[c], ROOTDEV, s)
    {
      var c :| 0 <= c < NBUF && Holds(bufs[c], ROOTDEV, s);
      assert Settled(bufs[c], disk, pend);
      assert c != b;
      assert Holds(bufs'[c], ROOTDEV, s);
    }
  }

  lemma {:induction false} HeldMayChange(bufs: seq<Buf>, disk: Sectors, pend: map<nat, Block>, b: nat, data: Block)
    requires Coherent(bufs, disk, pend) && b < NBUF && bufs[b].busy
    ensures Coherent(bufs[b := bufs[b].(data := data)], disk, pend)
  {
    var bufs' := bufs[b := bufs[b].(data := data)];
    assert Settled(bufs[b], disk, pend);
    assert forall c :: 0 <= c < NBUF ==> Holds(bufs'[c], bufs[c].dev, bufs[c].sector);
  }

  /** bwrite of a held buffer: its sector is no longer pending and disk and buffer agree. */
  lemma {:induction false} WriteCoherent(bufs: seq<Buf>, disk: Sectors, pend: map<nat, Block>, b: nat)
    requires Coherent(bufs, disk, pend) && AtMostOne(bufs) && b < NBUF
    requires bufs[b].busy && bufs[b].dev == ROOTDEV && bufs[b].sector < |disk|
    ensures var s, bufs' := bufs[b].sector, bufs[b := bufs[b].(dirty := false, valid := true)];
            Coherent(bufs', disk[s := bufs[b].data], pend - {s})
            && Releasable(bufs'[b], disk[s := bufs[b].data], pend - {s})
  {
    var s, bufs' := bufs[b].sector, bufs[b := bufs[b].(dirty := false, valid := true)];
    var disk', pend' := disk[s := bufs[b].data], pend - {s};
    forall c | 0 <= c < NBUF
      ensures Settled(bufs'[c], disk', pend')
    {
      assert Settled(bufs[c], disk, pend);
      if c != b && bufs[c].dev != -1 {
        assert !Holds(bufs[c], bufs[b].dev, bufs[b].sector) && !Holds(bufs[b], bufs[c].dev, bufs[c].sector);
      }
    }
    forall t | t in pend'
      ensures exists c :: 0 <= c < NBUF && Holds(bufs'[c], ROOTDEV, t)
    {
      var c :| 0 <= c < NBUF && Holds(bufs[c], ROOTDEV, t);
      assert Holds(bufs'[c], ROOTDEV, t);
    }
  }

  /** log_write pins a held buffer and makes its data the pending content of the sector. */
  lemma {:induction false} PinCoherent(bufs: seq<Buf>, disk: Sectors, pend: map<nat, Block>, b: nat)
    requires Coherent(bufs, disk, pend) && AtMostOne(bufs) && b < NBUF
    requires bufs[b].busy && bufs[b].dev == ROOTDEV && bufs[b].sector < |disk|
    ensures var s, bufs' := bufs[b].sector, bufs[b := bufs[b].(dirty := true)];
            Coherent(bufs', disk, pend[s := bufs[b].data])
            && Releasable(bufs'[b], disk, pend[s := bufs[b].data])
  {
    var s, bufs' := bufs[b].sector, bufs[b := bufs[b].(dirty := true)];
    var pend' := pend[s := bufs[b].data];
    forall c | 0 <= c < NBUF
      ensures Settled(bufs'[c], disk, pend')
    {
      assert Settled(bufs[c], disk, pend);
      if c != b && bufs[c].dev != -1 {
        assert !Holds(bufs[c], bufs[b].dev, bufs[b].sector) && !Holds(bufs[b], bufs[c].dev, bufs[c].sector);
      }
    }
    assert Holds(bufs'[b], ROOTDEV, s);
    forall t | t in pend'
      ensures t < |disk| && exists c :: 0 <= c < NBUF && Holds(bufs'[c], ROOTDEV, t)
    {
      if t != s {
        var c :| 0 <= c < NBUF && Holds(bufs[c], ROOTDEV, t);
        assert Holds(bufs'[c], ROOTDEV, t);
      }
    }
  }

  lemma {:induction false} ReleaseCoherent(bufs: seq<Buf>, bufs': seq<Buf>, disk: Sectors, pend: map<nat, Block>,
                                           b: nat)
    requires Coherent(bufs, disk, pend) && b < NBUF && Releasable(bufs[b], disk, pend)
    requires OnlyLinksChanged(bufs[b := bufs[b].(busy := false)], bufs')
    ensures Coherent(bufs', disk, pend)
  {
    var x := bufs[b := bufs[b].(busy := false)];
    forall c | 0 <= c < NBUF
      ensures Settled(bufs'[c], disk, pend) && Holds(bufs'[c], bufs[c].dev, bufs[c].sector)
    {
      assert SameBut(bufs'[c], x[c]);
      assert Settled(bufs[c], disk, pend);
    }
  }
}
