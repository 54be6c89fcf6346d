/** The Kernighan and Ritchie allocator of libc/malloc.c. Addresses are in units of one Header
    (8 bytes); a block is its header unit plus the units after it. */
module Malloc {
  import opened Words

  const NULL: int := 0
  const BASE: int := 1     // the static header `base`, below the heap in the program's data

  // ---- block sizes (malloc.c:51 and 31-35), in 32-bit arithmetic ----

  function UnitsFor(nbytes: U32): nat {
    Wrap32(nbytes + 8 - 1) / 8 + 1
  }

  /** How much morecore asks for. */
  function Request(nunits: nat): nat {
    if nunits < 4096 then 4096 else nunits
  }

  /** sbrk takes a signed int: the byte count as the kernel sees it. */
  function SbrkArgument(nunits: nat): int {
    var bytes := Wrap32(Request(nunits) * 8);
    if bytes < W32 / 2 then bytes else bytes - W32
  }

  /** The size arithmetic is right, that is, the block holds nbytes and sbrk is asked for exactly
      the units the header will claim, precisely for requests up to 2^31 - 16 bytes. */
  lemma {:induction false} SizeArithmetic(nbytes: U32)
    ensures (8 * (UnitsFor(nbytes) - 1) >= nbytes && SbrkArgument(UnitsFor(nbytes)) == 8 * Request(UnitsFor(nbytes)))
            <==> nbytes <= 0x8000_0000 - 16
    ensures UnitsFor(nbytes) >= 1
  {
    var u := UnitsFor(nbytes);
    if nbytes <= W32 - 8 {
      assert u == (nbytes + 7) / 8 + 1;
      assert 8 * (u - 1) >= nbytes;
      assert SbrkArgument(u) == 8 * Request(u) <==> 8 * Request(u) < W32 / 2;
    } else {
      assert Wrap32(nbytes + 7) == nbytes + 7 - W32;
    }
  }

  /** Two requests that go wrong: the first gets one unit, the second asks the kernel to shrink. */
  lemma {:induction false} OversizedRequests()
    ensures UnitsFor(0xffff_ffff) == 1
    ensures SbrkArgument(UnitsFor(0x8000_0000)) < 0
  {
  }

  // ---- the free ring ----

  type Links = map<int, int>

  ghost predicate Increasing(ring: seq<int>) {
    forall i, j :: 0 <= i < j < |ring| ==> ring[i] < ring[j]
  }

  function Next(n: nat, i: nat): nat {
    if i + 1 < n then i + 1 else 0
  }

  /** ptr walks the ring in address order and wraps once, from the highest block to base. */
  ghost predicate Ring(ptr: Links, ring: seq<int>) {
    && |ring| > 0 && ring[0] == BASE && Increasing(ring)
    && forall i :: 0 <= i < |ring| ==> LinkAt(ptr, ring, i)
  }

  ghost predicate LinkAt(ptr: Links, ring: seq<int>, i: nat)
    requires i < |ring|
  {
    ring[i] in ptr && ptr[ring[i]] == ring[Next(|ring|, i)]
  }

  /** The free blocks lie in address order without overlap, below top; base has no units. */
  ghost predicate FreeBlocks(size: Links, ring: seq<int>, top: int) {
    && |ring| > 0 && ring[0] == BASE && BASE in size && size[BASE] == 0
    && forall i :: 0 < i < |ring| ==> FreeAt(size, ring, top, i)
  }

  ghost predicate FreeAt(size: Links, ring: seq<int>, top: int, i: nat)
    requires i < |ring|
  {
    && BASE < ring[i] && ring[i] in size && size[ring[i]] >= 1 && ring[i] + size[ring[i]] <= top
    && (i + 1 < |ring| ==> ring[i] + size[ring[i]] <= ring[i + 1])
  }

  /** There is a gap behind free block i: it is not adjacent to the next one. */
  ghost predicate GapAt(size: Links, ring: seq<int>, i: nat) {
    i + 1 < |ring| && ring[i] in size ==> ring[i] + size[ring[i]] < ring[i + 1]
  }

  /** No two free blocks are adjacent, except perhaps at positions lo to hi. */
  ghost predicate Gaps(size: Links, ring: seq<int>, lo: int, hi: int) {
    forall i :: 0 <= i < |ring| && !(lo <= i <= hi) ==> GapAt(size, ring, i)
  }

  ghost predicate Apart(a: int, n: int, b: int, m: int) {
    a + n <= b || b + m <= a
  }

  ghost predicate LiveBlocks(size: Links, live: Links, top: int) {
    && (forall a :: a in live ==> BASE < a && live[a] >= 1 && a + live[a] <= top && a in size && size[a] == live[a])
    && (forall a, b :: a in live && b in live && a != b ==> Apart(a, live[a], b, live[b]))
  }

  ghost predicate FreeLiveApart(size: Links, ring: seq<int>, live: Links) {
    forall i, a :: 0 < i < |ring| && a in live ==> ring[i] in size && Apart(ring[i], size[ring[i]], a, live[a])
  }

  ghost predicate Heap(ptr: Links, size: Links, ring: seq<int>, live: Links, top: int) {
    && Ring(ptr, ring) && FreeBlocks(size, ring, top) && Gaps(size, ring, 0, -1)
    && LiveBlocks(size, live, top) && FreeLiveApart(size, ring, live)
  }

  // ---- free (malloc.c:89-114) ----

  /** Position of the last ring element below a: where the block at a belongs. */
  ghost predicate Below(ring: seq<int>, t: nat, a: int) {
    t < |ring| && ring[t] < a && (t + 1 < |ring| ==> a < ring[t + 1])
  }

  function Insert(ring: seq<int>, t: nat, a: int): seq<int>
    requires t < |ring|
  {
    ring[..t + 1] + [a] + ring[t + 1..]
  }

  function Remove(ring: seq<int>, k: nat): seq<int>
    requires k < |ring|
  {
    ring[..k] + ring[k + 1..]
  }

  lemma {:induction false} RingInsert(ptr: Links, ring: seq<int>, t: nat, a: int)
    requires Ring(ptr, ring) && Below(ring, t, a)
    ensures ring[t] in ptr
    ensures Ring(ptr[a := ptr[ring[t]]][ring[t] := a], Insert(ring, t, a))
  {
    var r := Insert(ring, t, a);
    InsertIncreasing(ring, t, a);
    assert LinkAt(ptr, ring, t);
    var q := ptr[a := ptr[ring[t]]][ring[t] := a];
    forall i | 0 <= i < |r|
      ensures LinkAt(q, r, i)
    {
      assert r[i] == if i <= t then ring[i] else if i == t + 1 then a else ring[i - 1];
      if i < t {
        assert LinkAt(ptr, ring, i);
      } else if i > t + 1 {
        assert LinkAt(ptr, ring, i - 1);
      }
    }
  }

  lemma {:induction false} RingRemove(ptr: Links, ring: seq<int>, k: nat)
    requires Ring(ptr, ring) && 0 < k < |ring|
    ensures ring[k] in ptr
    ensures Ring(ptr[ring[k - 1] := ptr[ring[k]]], Remove(ring, k))
  {
    var r := Remove(ring, k);
    assert LinkAt(ptr, ring, k);
    var q := ptr[ring[k - 1] := ptr[ring[k]]];
    RemoveIncreasing(ring, k);
    forall i | 0 <= i < |r|
      ensures LinkAt(q, r, i)
    {
      assert r[i] == if i < k then ring[i] else ring[i + 1];
      assert i + 1 < |r| ==> r[i + 1] == if i + 1 < k then ring[i + 1] else ring[i + 2];
      if i < k - 1 {
        assert LinkAt(ptr, ring, i);
      } else if i >= k {
        assert LinkAt(ptr, ring, i + 1);
      }
    }
    hide Increasing;
  }

  lemma {:induction false} FreeInsert(size: Links, ring: seq<int>, t: nat, a: int, top: int)
    requires FreeBlocks(size, ring, top) && Increasing(ring) && Gaps(size, ring, 0, -1) && Below(ring, t, a) && BASE < a
    requires a in size && size[a] >= 1 && a + size[a] <= top
    requires forall i :: 0 < i < |ring| ==> ring[i] in size && Apart(ring[i], size[ring[i]], a, size[a])
    ensures FreeBlocks(size, Insert(ring, t, a), top) && Gaps(size, Insert(ring, t, a), t, t + 1)
  {
    var r := Insert(ring, t, a);
    forall i | 0 < i < |r|
      ensures FreeAt(size, r, top, i)
      ensures !(t <= i <= t + 1) ==> GapAt(size, r, i)
    {
      if i <= t {
        assert FreeAt(size, ring, top, i) && GapAt(size, ring, i);
      } else if i > t + 1 {
        assert FreeAt(size, ring, top, i - 1) && GapAt(size, ring, i - 1);
      } else if i + 1 < |r| {
        assert FreeAt(size, ring, top, t + 1);
        assert Apart(ring[t + 1], size[ring[t + 1]], a, size[a]);
      }
    }
    assert 0 != t ==> GapAt(size, ring, 0);
  }

  /** Free block k is merged into the adjacent block before it. */
  lemma {:induction false} FreeMerge(size: Links, ring: seq<int>, k: nat, top: int, lo: int)
    requires FreeBlocks(size, ring, top) && Increasing(ring) && 1 < k < |ring| && lo < k
    requires Gaps(size, ring, lo, k - 1)
    requires ring[k - 1] in size && ring[k] in size && ring[k - 1] + size[ring[k - 1]] == ring[k]
    ensures var z := size[ring[k - 1] := size[ring[k - 1]] + size[ring[k]]];
            FreeBlocks(z, Remove(ring, k), top) && Gaps(z, Remove(ring, k), lo, k - 2)
  {
    var r, z := Remove(ring, k), size[ring[k - 1] := size[ring[k - 1]] + size[ring[k]]];
    assert FreeAt(size, ring, top, k - 1) && FreeAt(size, ring, top, k);
    forall i | 0 < i < |r|
      ensures FreeAt(z, r, top, i)
    {
      if i < k - 1 {
        assert FreeAt(size, ring, top, i);
      } else if i >= k {
        assert FreeAt(size, ring, top, i + 1);
      }
    }
    forall i | 0 <= i < |r| && !(lo <= i <= k - 2)
      ensures GapAt(z, r, i)
    {
      if i < k - 1 {
        assert GapAt(size, ring, i);
      } else {
        assert GapAt(size, ring, i + 1);
      }
    }
  }

  /** The header writes of free (malloc.c:99-111) once p is found. */
  function FreedPtr(ptr: Links, size: Links, p: int, bp: int): Links
    requires p in ptr && bp in size && ptr[p] in ptr
  {
    var up := ptr[bp := if bp + size[bp] == ptr[p] then ptr[ptr[p]] else ptr[p]];
    up[p := if p in size && p + size[p] == bp then up[bp] else bp]
  }

  function FreedSize(ptr: Links, size: Links, p: int, bp: int): Links
    requires p in ptr && p in size && bp in size && ptr[p] in size
  {
    var up := if bp + size[bp] == ptr[p] then size[bp := size[bp] + size[ptr[p]]] else size;
    if p + up[p] == bp then up[p := up[p] + up[bp]] else up
  }

  function FreedRing(size: Links, ring: seq<int>, t: nat, bp: int): seq<int>
    requires t < |ring| && ring[t] in size && bp in size
  {
    var r := Insert(ring, t, bp);
    var r' := if t + 1 < |ring| && bp + size[bp] == ring[t + 1] then Remove(r, t + 2) else r;
    if ring[t] + size[ring[t]] == bp then Remove(r', t + 1) else r'
  }

  /** Merging with the block above (malloc.c:99-104): the new block at position t + 1 may still
      touch the one below it, at position t. */
  function MergedUpRing(size: Links, ring: seq<int>, t: nat, bp: int): seq<int>
    requires t < |ring| && bp in size
  {
    if t + 1 < |ring| && bp + size[bp] == ring[t + 1] then Remove(Insert(ring, t, bp), t + 2) else Insert(ring, t, bp)
  }

  function MergedUpSize(size: Links, ring: seq<int>, t: nat, bp: int): Links
    requires t < |ring| && bp in size && (t + 1 < |ring| ==> ring[t + 1] in size)
  {
    if t + 1 < |ring| && bp + size[bp] == ring[t + 1] then size[bp := size[bp] + size[ring[t + 1]]] else size
  }

  function MergedUpPtr(ptr: Links, size: Links, ring: seq<int>, t: nat, bp: int): Links
    requires t < |ring| && bp in size && ring[t] in ptr && ptr[ring[t]] in ptr
  {
    var q := ptr[bp := ptr[ring[t]]][ring[t] := bp];
    if t + 1 < |ring| && bp + size[bp] == ring[t + 1] then q[bp := q[ptr[ring[t]]]] else q
  }

  lemma {:induction false} MergeUpRing(ptr: Links, size: Links, ring: seq<int>, t: nat, bp: int)
    requires Ring(ptr, ring) && Below(ring, t, bp) && bp in size
    ensures ring[t] in ptr && ptr[ring[t]] in ptr && ptr[ring[t]] == ring[Next(|ring|, t)]
    ensures Ring(MergedUpPtr(ptr, size, ring, t, bp), MergedUpRing(size, ring, t, bp))
    ensures var r := MergedUpRing(size, ring, t, bp); t + 1 < |r| && r[t] == ring[t] && r[t + 1] == bp
  {
    assert LinkAt(ptr, ring, t) && LinkAt(ptr, ring, Next(|ring|, t));
    RingInsert(ptr, ring, t, bp);
    var r, q := Insert(ring, t, bp), ptr[bp := ptr[ring[t]]][ring[t] := bp];
    if t + 1 < |ring| && bp + size[bp] == ring[t + 1] {
      assert r[t + 2] == ring[t + 1] && r[t + 1] == bp;
      RingRemove(q, r, t + 2);
    }
  }

  lemma {:induction false} MergeUpBlocks(size: Links, ring: seq<int>, t: nat, bp: int, top: int)
    requires FreeBlocks(size, ring, top) && Increasing(ring) && Gaps(size, ring, 0, -1) && Below(ring, t, bp)
             && BASE < bp
    requires bp in size && size[bp] >= 1 && bp + size[bp] <= top
    requires forall i :: 0 < i < |ring| ==> ring[i] in size && Apart(ring[i], size[ring[i]], bp, size[bp])
    ensures var z, r := MergedUpSize(size, ring, t, bp), MergedUpRing(size, ring, t, bp);
            FreeBlocks(z, r, top) && Gaps(z, r, t, t) && Increasing(r)
  {
    var r := Insert(ring, t, bp);
    FreeInsert(size, ring, t, bp, top);
    InsertIncreasing(ring, t, bp);
    assert FreeAt(size, r, top, t + 1) && r[t + 1] == bp && |r| == |ring| + 1;
    assert t + 1 < |ring| ==> r[t + 2] == ring[t + 1];
    hide FreeBlocks, Gaps, Insert, Increasing, Apart;
    if t + 1 < |ring| && bp + size[bp] == ring[t + 1] {
      FreeMerge(size, r, t + 2, top, t);
      RemoveIncreasing(r, t + 2);
    } else {
      GapsNarrowed(size, r, t);
    }
  }

  lemma {:induction false} GapsNarrowed(size: Links, ring: seq<int>, t: nat)
    requires Gaps(size, ring, t, t + 1) && GapAt(size, ring, t + 1)
    ensures Gaps(size, ring, t, t)
  {
  }

  lemma {:induction false} FreedFromMerged(ptr: Links, size: Links, ring: seq<int>, t: nat, bp: int)
    requires Ring(ptr, ring) && Below(ring, t, bp) && bp in size && size[bp] >= 1 && ring[t] in size && BASE < bp
    ensures ring[t] in ptr && (bp + size[bp] == ptr[ring[t]] ==> t + 1 < |ring|)
    ensures var p, r := ring[t], MergedUpRing(size, ring, t, bp);
            t + 1 < |r| && FreedRing(size, ring, t, bp) == if p + size[p] == bp then Remove(r, t + 1) else r
  {
    hide Increasing;
    assert LinkAt(ptr, ring, t);
  }

  /** free keeps the ring linked in address order. */
  lemma {:induction false} FreeKeepsRing(ptr: Links, size: Links, ring: seq<int>, t: nat, bp: int)
    requires Ring(ptr, ring) && Below(ring, t, bp) && bp in size && size[bp] >= 1 && ring[t] in size && BASE < bp
    ensures ring[t] in ptr && ptr[ring[t]] in ptr && ptr[ring[t]] == ring[Next(|ring|, t)]
    ensures Ring(FreedPtr(ptr, size, ring[t], bp), FreedRing(size, ring, t, bp))
  {
    hide Ring, Insert, Remove, MergedUpRing, FreedRing;
    MergeUpRing(ptr, size, ring, t, bp);
    FreedFromMerged(ptr, size, ring, t, bp);
    var p, r := ring[t], MergedUpRing(size, ring, t, bp);
    var q := MergedUpPtr(ptr, size, ring, t, bp);
    if p + size[p] == bp {
      RingRemove(q, r, t + 1);
      assert FreedPtr(ptr, size, p, bp) == q[p := q[bp]];
    } else {
      assert FreedPtr(ptr, size, p, bp) == q;
    }
  }

  /** Whether the block below absorbs the new one decides between the two shapes. */
  lemma {:induction false} FreedShape(ptr: Links, size: Links, ring: seq<int>, t: nat, bp: int)
    requires Below(ring, t, bp) && bp in size && size[bp] >= 1
    requires ring[t] in ptr && ring[t] in size && ptr[ring[t]] in size && ptr[ring[t]] == ring[Next(|ring|, t)]
    requires t + 1 < |ring| || ring[0] < bp
    ensures t + 1 < |ring| ==> ring[t + 1] in size
    ensures var p, r, z := ring[t], MergedUpRing(size, ring, t, bp), MergedUpSize(size, ring, t, bp);
            && t + 1 < |r| && r[t] == p && r[t + 1] == bp
            && p in z && bp in z && z[p] == size[p]
            && (if p + size[p] == bp
                then FreedRing(size, ring, t, bp) == Remove(r, t + 1)
                     && FreedSize(ptr, size, p, bp) == z[p := z[p] + z[bp]]
                else FreedRing(size, ring, t, bp) == r && FreedSize(ptr, size, p, bp) == z)
  {
    assert bp + size[bp] == ptr[ring[t]] <==> t + 1 < |ring| && bp + size[bp] == ring[t + 1];
  }

  /** free keeps the free blocks apart, with no two adjacent. */
  lemma {:induction false} FreeKeepsBlocks(ptr: Links, size: Links, ring: seq<int>, t: nat, bp: int, top: int)
    requires FreeBlocks(size, ring, top) && Increasing(ring) && Gaps(size, ring, 0, -1) && Below(ring, t, bp)
             && BASE < bp
    requires bp in size && size[bp] >= 1 && bp + size[bp] <= top
    requires forall i :: 0 < i < |ring| ==> ring[i] in size && Apart(ring[i], size[ring[i]], bp, size[bp])
    requires ring[t] in ptr && ring[t] in size && ptr[ring[t]] in size && ptr[ring[t]] == ring[Next(|ring|, t)]
    ensures var z, r := FreedSize(ptr, size, ring[t], bp), FreedRing(size, ring, t, bp);
            FreeBlocks(z, r, top) && Gaps(z, r, 0, -1)
  {
    assert ring[0] == BASE && size[BASE] == 0 by {
      hide Gaps, Increasing, Apart, FreedRing, FreedSize;
    }
    hide FreeBlocks, Increasing, Gaps, Insert, Remove, MergedUpRing, MergedUpSize, FreedRing, FreedSize, Apart;
    FreedShape(ptr, size, ring, t, bp);
    MergeUpBlocks(size, ring, t, bp, top);
    FreeDown(MergedUpSize(size, ring, t, bp), MergedUpRing(size, ring, t, bp), t, bp, top);
  }

  /** The second merge, with the block below (malloc.c:105-110). */
  lemma {:induction false} FreeDown(z: Links, r: seq<int>, t: nat, bp: int, top: int)
    requires FreeBlocks(z, r, top) && Increasing(r) && Gaps(z, r, t, t)
    requires t + 1 < |r| && r[t + 1] == bp && r[t] in z && bp in z && BASE < bp
    ensures var p := r[t];
            if p + z[p] == bp
            then FreeBlocks(z[p := z[p] + z[bp]], Remove(r, t + 1), top)
            && Gaps(z[p := z[p] + z[bp]], Remove(r, t + 1), 0, -1)
            else Gaps(z, r, 0, -1)
  {
    var p := r[t];
    assert t == 0 ==> p == BASE && z[BASE] == 0;
    assert t > 0 ==> FreeAt(z, r, top, t);
    hide FreeBlocks, Increasing, Gaps, Remove;
    if p + z[p] == bp {
      FreeMerge(z, r, t + 1, top, t);
      GapsClosed(z[p := z[p] + z[bp]], Remove(r, t + 1), t, t - 1);
    } else {
      GapsClosed(z, r, t, t);
    }
  }

  lemma {:induction false} GapsClosed(size: Links, ring: seq<int>, lo: int, hi: int)
    requires Gaps(size, ring, lo, hi) && lo >= 0 && (hi < lo || (hi == lo < |ring| && GapAt(size, ring, lo)))
    ensures Gaps(size, ring, 0, -1)
  {
  }

  lemma {:induction false} RingNotLive(size: Links, ring: seq<int>, live: Links, top: int, i: nat)
    requires FreeBlocks(size, ring, top) && LiveBlocks(size, live, top) && FreeLiveApart(size, ring, live) && i < |ring|
    ensures ring[i] !in live
  {
    assert i > 0 ==> FreeAt(size, ring, top, i);
    assert i > 0 ==> forall a :: a in live ==> Apart(ring[i], size[ring[i]], a, live[a]);
  }

  lemma {:induction false} FreeKeepsLive(ptr: Links, size: Links, ring: seq<int>, live: Links, t: nat, bp: int,
                                         top: int)
    requires FreeBlocks(size, ring, top) && LiveBlocks(size, live, top) && FreeLiveApart(size, ring, live)
    requires Increasing(ring) && bp in live && t < |ring|
    requires ring[t] in ptr && ring[t] in size && ptr[ring[t]] in size && ptr[ring[t]] == ring[Next(|ring|, t)]
    ensures LiveBlocks(FreedSize(ptr, size, ring[t], bp), live - {bp}, top)
  {
    RingNotLive(size, ring, live, top, t);
  }

  /** Which units a free block of the new ring covers: its own, and those of blocks merged in. */
  lemma {:induction false} FreeKeepsApart(ptr: Links, size: Links, ring: seq<int>, live: Links, t: nat, bp: int,
                                          top: int, i: nat, a: int)
    requires FreeBlocks(size, ring, top) && LiveBlocks(size, live, top) && FreeLiveApart(size, ring, live)
    requires Increasing(ring) && bp in live && Below(ring, t, bp)
    requires ring[t] in ptr && ring[t] in size && ptr[ring[t]] in size && ptr[ring[t]] == ring[Next(|ring|, t)]
    requires 0 < i < |FreedRing(size, ring, t, bp)| && a in live && a != bp
    ensures var z, r := FreedSize(ptr, size, ring[t], bp), FreedRing(size, ring, t, bp);
            r[i] in z && Apart(r[i], z[r[i]], a, live[a])
  {
    hide FreedRing, FreedSize, Increasing;
    var p := ring[t];
    assert Apart(bp, size[bp], a, live[a]) && size[bp] >= 1 && live[a] >= 1;
    if t > 0 {
      assert Apart(p, size[p], a, live[a]) && FreeAt(size, ring, top, t);
    }
    if t + 1 < |ring| {
      assert Apart(ring[t + 1], size[ring[t + 1]], a, live[a]) && FreeAt(size, ring, top, t + 1);
    }
    var k := FreedSpan(ptr, size, ring, top, t, bp, i);
    if 0 < k < |ring| {
      assert Apart(ring[k], size[ring[k]], a, live[a]);
    }
  }

  /** What a block of the new ring is: one of the old ring, the new one with the block above it, or the
      block below with both. */
  lemma {:induction false} FreedSpan(ptr: Links, size: Links, ring: seq<int>, top: int, t: nat, bp: int, i: nat)
    returns (k: nat)
    requires FreeBlocks(size, ring, top) && Increasing(ring) && Below(ring, t, bp) && bp in size && size[bp] >= 1
    requires ring[t] in ptr && ring[t] in size && ptr[ring[t]] in size && ptr[ring[t]] == ring[Next(|ring|, t)]
    requires 0 < i < |FreedRing(size, ring, t, bp)|
    ensures var p, z, r := ring[t], FreedSize(ptr, size, ring[t], bp), FreedRing(size, ring, t, bp);
            && r[i] in z
            && var up := t + 1 < |ring| && ring[t + 1] in size && bp + size[bp] == ring[t + 1];
               var above := if up then size[ring[t + 1]] else 0;
               || (0 < k < |ring| && r[i] == ring[k] && ring[k] in size && z[r[i]] == size[ring[k]])
               || (r[i] == bp && z[bp] == size[bp] + above)
               || (t > 0 && r[i] == p && p + size[p] == bp && z[p] == size[p] + size[bp] + above)
  {
    hide FreedRing, FreedSize;
    k := FreedFrom(size, ring, t, bp, i);
    if t + 1 < |ring| {
      assert FreeAt(size, ring, top, t + 1);
    }
    if 0 < k < |ring| {
      assert FreeAt(size, ring, top, k);
    }
    hide FreeBlocks;
    assert bp + size[bp] == ptr[ring[t]] <==> t + 1 < |ring| && bp + size[bp] == ring[t + 1];
    FreedSizeAt(ptr, size, ring[t], bp);
  }

  lemma {:induction false} FreedSizeAt(ptr: Links, size: Links, p: int, bp: int)
    requires p in ptr && p in size && bp in size && ptr[p] in size && p != bp
    ensures var z := FreedSize(ptr, size, p, bp);
            var above := if bp + size[bp] == ptr[p] then size[ptr[p]] else 0;
            && p in z && bp in z && z[bp] == size[bp] + above
            && z[p] == (if p + size[p] == bp then size[p] + size[bp] + above else size[p])
            && forall x :: x in size && x != p && x != bp ==> x in z && z[x] == size[x]
  {
  }

  lemma {:induction false} FreedFrom(size: Links, ring: seq<int>, t: nat, bp: int, i: nat) returns (k: nat)
    requires t < |ring| && ring[t] in size && bp in size && 0 < i < |FreedRing(size, ring, t, bp)|
    requires ring[0] < ring[t] || t == 0
    ensures FreedRing(size, ring, t, bp)[i] != bp ==> 0 < k < |ring| && FreedRing(size, ring, t, bp)[i] == ring[k]
  {
    var r := FreedRing(size, ring, t, bp);
    var up := t + 1 < |ring| && bp + size[bp] == ring[t + 1];
    var down := ring[t] + size[ring[t]] == bp;
    if i <= t {
      k := i;
    } else if down {
      k := if up then i + 1 else i;
    } else {
      k := if up then i else i - 1;
    }
  }

  // ---- counting units ----

  function SizeOf(size: Links, a: int): int {
    if a in size then size[a] else 0
  }

  function FreeUnits(size: Links, ring: seq<int>): int {
    if ring == [] then 0 else FreeUnits(size, ring[..|ring| - 1]) + SizeOf(size, ring[|ring| - 1])
  }

  lemma {:induction false} UnitsConcat(size: Links, a: seq<int>, b: seq<int>)
    ensures FreeUnits(size, a + b) == FreeUnits(size, a) + FreeUnits(size, b)
    decreases |b|
  {
    if b == [] {
      assert a + b == a;
    } else {
      assert (a + b)[..|a + b| - 1] == a + b[..|b| - 1];
      UnitsConcat(size, a, b[..|b| - 1]);
    }
  }

  lemma {:induction false} UnitsAgree(size: Links, size': Links, ring: seq<int>)
    requires forall a :: a in ring ==> SizeOf(size, a) == SizeOf(size', a)
    ensures FreeUnits(size, ring) == FreeUnits(size', ring)
  {
    if ring != [] {
      UnitsAgree(size, size', ring[..|ring| - 1]);
    }
  }

  lemma {:induction false} UnitsOne(size: Links, a: int)
    ensures FreeUnits(size, [a]) == SizeOf(size, a)
  {
    assert [a][..0] == [] && FreeUnits(size, []) == 0;
  }

  lemma {:induction false} UnitsInsert(size: Links, ring: seq<int>, t: nat, a: int)
    requires t < |ring|
    ensures FreeUnits(size, Insert(ring, t, a)) == FreeUnits(size, ring) + SizeOf(size, a)
  {
    assert ring == ring[..t + 1] + ring[t + 1..];
    UnitsConcat(size, ring[..t + 1], ring[t + 1..]);
    UnitsConcat(size, ring[..t + 1], [a]);
    UnitsConcat(size, ring[..t + 1] + [a], ring[t + 1..]);
    UnitsOne(size, a);
  }

  lemma {:induction false} UnitsRemove(size: Links, ring: seq<int>, k: nat)
    requires k < |ring|
    ensures FreeUnits(size, Remove(ring, k)) == FreeUnits(size, ring) - SizeOf(size, ring[k])
  {
    assert ring == ring[..k] + [ring[k]] + ring[k + 1..];
    UnitsConcat(size, ring[..k], [ring[k]]);
    UnitsConcat(size, ring[..k] + [ring[k]], ring[k + 1..]);
    UnitsConcat(size, ring[..k], ring[k + 1..]);
    UnitsOne(size, ring[k]);
  }

  /** Changing the size of one ring element changes the sum by the difference. */
  lemma {:induction false} UnitsResize(size: Links, ring: seq<int>, k: nat, n: int)
    requires k < |ring| && Increasing(ring) && ring[k] in size
    ensures FreeUnits(size[ring[k] := n], ring) == FreeUnits(size, ring) - size[ring[k]] + n
  {
    var z, rest := size[ring[k] := n], Remove(ring, k);
    UnitsRemove(size, ring, k);
    UnitsRemove(z, ring, k);
    UnitsAgree(size, z, rest);
  }

  lemma {:induction false} UnitsMerge(size: Links, ring: seq<int>, k: nat)
    requires 0 < k < |ring| && Increasing(ring) && ring[k] in size && ring[k - 1] in size
    ensures FreeUnits(size[ring[k - 1] := size[ring[k - 1]] + size[ring[k]]], Remove(ring, k)) == FreeUnits(size, ring)
  {
    var z := size[ring[k - 1] := size[ring[k - 1]] + size[ring[k]]];
    UnitsResize(size, ring, k - 1, size[ring[k - 1]] + size[ring[k]]);
    UnitsRemove(z, ring, k);
  }

  lemma {:induction false} MergeUpUnits(size: Links, ring: seq<int>, t: nat, bp: int)
    requires Increasing(ring) && Below(ring, t, bp) && bp in size && (t + 1 < |ring| ==> ring[t + 1] in size)
    ensures var r, z := MergedUpRing(size, ring, t, bp), MergedUpSize(size, ring, t, bp);
            && t + 1 < |r| && r[t] == ring[t] && r[t + 1] == bp && Increasing(r)
            && FreeUnits(z, r) == FreeUnits(size, ring) + size[bp]
  {
    hide FreeUnits;
    var r := Insert(ring, t, bp);
    UnitsInsert(size, ring, t, bp);
    InsertIncreasing(ring, t, bp);
    if t + 1 < |ring| && bp + size[bp] == ring[t + 1] {
      assert r[t + 2] == ring[t + 1] && r[t + 1] == bp;
      UnitsMerge(size, r, t + 2);
      RemoveIncreasing(r, t + 2);
    }
  }

  /** free moves the block's units into the ring, however it merges. */
  lemma {:induction false} FreeAddsUnits(ptr: Links, size: Links, ring: seq<int>, t: nat, bp: int)
    requires Increasing(ring) && Below(ring, t, bp) && bp in size && ring[t] in size && ring[t] in ptr
    requires ptr[ring[t]] in size && ptr[ring[t]] == ring[Next(|ring|, t)] && ring[0] < bp && size[bp] >= 1
    ensures FreeUnits(FreedSize(ptr, size, ring[t], bp), FreedRing(size, ring, t, bp)) == FreeUnits(size,
        ring) + size[bp]
  {
    hide FreeUnits, FreedRing, FreedSize, MergedUpRing, MergedUpSize, Increasing;
    MergeUpUnits(size, ring, t, bp);
    FreedSplit(ptr, size, ring, t, bp);
    var p, r, z := ring[t], MergedUpRing(size, ring, t, bp), MergedUpSize(size, ring, t, bp);
    if p + size[p] == bp {
      UnitsMerge(z, r, t + 1);
    }
  }

  /** The two merges of free, one after the other. */
  lemma {:induction false} FreedSplit(ptr: Links, size: Links, ring: seq<int>, t: nat, bp: int)
    requires Increasing(ring) && Below(ring, t, bp) && bp in size && ring[t] in size && ring[t] in ptr
    requires ptr[ring[t]] in size && ptr[ring[t]] == ring[Next(|ring|, t)] && ring[0] < bp && size[bp] >= 1
    ensures t + 1 < |ring| ==> ring[t + 1] in size
    ensures var p, r, z := ring[t], MergedUpRing(size, ring, t, bp), MergedUpSize(size, ring, t, bp);
            && t + 1 < |r| && r[t] == p && r[t + 1] == bp && p in z && bp in z && z[p] == size[p]
            && FreedRing(size, ring, t, bp) == (if p + size[p] == bp then Remove(r, t + 1) else r)
            && FreedSize(ptr, size, p, bp) == if p + size[p] == bp then z[p := z[p] + z[bp]] else z
  {
    assert bp + size[bp] == ptr[ring[t]] <==> t + 1 < |ring| && bp + size[bp] == ring[t + 1];
  }

  lemma {:induction false} InsertIncreasing(ring: seq<int>, t: nat, a: int)
    requires Increasing(ring) && Below(ring, t, a)
    ensures Increasing(Insert(ring, t, a))
  {
  }

  lemma {:induction false} RemoveIncreasing(ring: seq<int>, k: nat)
    requires Increasing(ring) && k < |ring|
    ensures Increasing(Remove(ring, k))
  {
  }

  ghost function LiveUnits(live: Links): int {
    if |live.Keys| == 0 then 0
    else live[Pick(live.Keys)] + LiveUnits(live - {Pick(live.Keys)})
  }

  ghost function Pick<T>(keys: set<T>): (a: T)
    requires keys != {}
    ensures a in keys
  {
    var k :| k in keys;
    k
  }

  lemma {:induction false} LiveRemove(live: Links, a: int)
    requires a in live
    ensures LiveUnits(live) == live[a] + LiveUnits(live - {a})
    decreases |live|
  {
    var b := Pick(live.Keys);
    if a != b {
      LiveRemove(live - {b}, a);
      LiveRemove(live - {a}, b);
      assert live - {b} - {a} == live - {a} - {b};
    }
  }

  lemma {:induction false} LiveAdd(live: Links, a: int, n: int)
    requires a !in live
    ensures LiveUnits(live[a := n]) == LiveUnits(live) + n
  {
    LiveRemove(live[a := n], a);
    assert live[a := n] - {a} == live;
  }

  lemma {:induction false} FreeFacts(ptr: Links, size: Links, ring: seq<int>, live: Links, top: int, t: nat, bp: int)
    requires Heap(ptr, size, ring, live, top) && bp in live && Below(ring, t, bp)
    ensures ring[t] in ptr && ring[t] in size && ptr[ring[t]] in ptr && ptr[ring[t]] in size
    ensures ptr[ring[t]] == ring[Next(|ring|, t)] && ring[0] == BASE < bp
    ensures bp in size && size[bp] == live[bp] >= 1 && bp + size[bp] <= top
    ensures forall i :: 0 < i < |ring| ==> ring[i] in size && Apart(ring[i], size[ring[i]], bp, size[bp])
    ensures t < |FreedRing(size, ring, t, bp)| && FreedRing(size, ring, t, bp)[t] == ring[t]
    ensures BASE <= ring[t] < bp && ptr[ring[t]] != bp
  {
    assert LinkAt(ptr, ring, t) && LinkAt(ptr, ring, Next(|ring|, t));
    assert forall i :: 0 < i < |ring| ==> FreeAt(size, ring, top, i);
  }

  /** free keeps the whole heap in order and gives up exactly the block. */
  lemma {:induction false} FreeStep(ptr: Links, size: Links, ring: seq<int>, live: Links, top: int, t: nat, bp: int)
    requires Heap(ptr, size, ring, live, top) && bp in live && Below(ring, t, bp)
    ensures ring[t] in ptr && ring[t] in size && ptr[ring[t]] in ptr && ptr[ring[t]] in size
    ensures var r, z := FreedRing(size, ring, t, bp), FreedSize(ptr, size, ring[t], bp);
            && Heap(FreedPtr(ptr, size, ring[t], bp), z, r, live - {bp}, top)
            && FreeUnits(z, r) + LiveUnits(live - {bp}) == FreeUnits(size, ring) + LiveUnits(live)
            && t < |r| && r[t] == ring[t]
  {
    FreeFacts(ptr, size, ring, live, top, t, bp);
    hide FreeUnits, LiveUnits, FreeBlocks, LiveBlocks, Gaps, FreedRing, FreedSize, FreedPtr, Apart, Below, Increasing,
         LinkAt;
    FreeKeepsRing(ptr, size, ring, t, bp);
    FreeKeepsBlocks(ptr, size, ring, t, bp, top);
    FreeKeepsLive(ptr, size, ring, live, t, bp, top);
    FreeAddsUnits(ptr, size, ring, t, bp);
    LiveRemove(live, bp);
    var r, z := FreedRing(size, ring, t, bp), FreedSize(ptr, size, ring[t], bp);
    forall i, a | 0 < i < |r| && a in live - {bp}
      ensures r[i] in z && Apart(r[i], z[r[i]], a, (live - {bp})[a])
    {
      FreeKeepsApart(ptr, size, ring, live, t, bp, top, i, a);
    }
  }

  // ---- taking a block (malloc.c:59-70) ----

  lemma {:induction false} BlocksApart(size: Links, ring: seq<int>, top: int, i: nat, k: nat)
    requires FreeBlocks(size, ring, top) && Increasing(ring) && 0 < k < |ring| && 0 < i < |ring| && i != k
    ensures ring[i] in size && ring[k] in size && Apart(ring[i], size[ring[i]], ring[k], size[ring[k]])
    ensures size[ring[k]] >= 1 && !(ring[k] <= ring[i] < ring[k] + size[ring[k]])
  {
    assert FreeAt(size, ring, top, i) && FreeAt(size, ring, top, k);
    if i < k {
      assert ring[i] + size[ring[i]] <= ring[i + 1] <= ring[k];
    } else {
      assert ring[k] + size[ring[k]] <= ring[k + 1] <= ring[i];
    }
  }

  lemma {:induction false} TakeExactBlocks(size: Links, ring: seq<int>, top: int, k: nat)
    requires FreeBlocks(size, ring, top) && Increasing(ring) && Gaps(size, ring, 0, -1) && 0 < k < |ring|
    ensures FreeBlocks(size, Remove(ring, k), top) && Gaps(size, Remove(ring, k), 0, -1)
  {
    var r := Remove(ring, k);
    forall i | 0 <= i < |r|
      ensures i > 0 ==> FreeAt(size, r, top, i)
      ensures GapAt(size, r, i)
    {
      var j := if i < k then i else i + 1;
      assert r[i] == ring[j] && GapAt(size, ring, j) && GapAt(size, ring, k);
      assert j > 0 ==> FreeAt(size, ring, top, j);
      assert FreeAt(size, ring, top, k);
      if i + 1 < |r| {
        assert r[i + 1] == ring[if i + 1 < k then i + 1 else i + 2];
      }
    }
  }

  /** A block of exactly the right size leaves the ring. */
  lemma {:induction false} AboveBase(ptr: Links, size: Links, ring: seq<int>, live: Links, top: int, k: nat)
    requires Heap(ptr, size, ring, live, top) && 0 < k < |ring|
    ensures BASE <= ring[k - 1] && BASE < ring[k]
  {
    assert FreeAt(size, ring, top, k);
    assert k > 1 ==> FreeAt(size, ring, top, k - 1);
  }

  lemma {:induction false} TakeExact(ptr: Links, size: Links, ring: seq<int>, live: Links, top: int, k: nat)
    requires Heap(ptr, size, ring, live, top) && 0 < k < |ring|
    ensures ring[k] in ptr && ring[k] in size && ring[k] !in live
    ensures var r, l := Remove(ring, k), live[ring[k] := size[ring[k]]];
            && Heap(ptr[ring[k - 1] := ptr[ring[k]]], size, r, l, top)
            && FreeUnits(size, r) + LiveUnits(l) == FreeUnits(size, ring) + LiveUnits(live)
  {
    hide FreeUnits, LiveUnits, Gaps, LinkAt;
    var p, r := ring[k], Remove(ring, k);
    assert FreeAt(size, ring, top, k);
    RingRemove(ptr, ring, k);
    RingNotLive(size, ring, live, top, k);
    TakeExactBlocks(size, ring, top, k);
    UnitsRemove(size, ring, k);
    LiveAdd(live, p, size[p]);
    var l := live[p := size[p]];
    forall i, a | 0 < i < |r| && a in l
      ensures r[i] in size && Apart(r[i], size[r[i]], a, l[a])
    {
      var j := if i < k then i else i + 1;
      assert r[i] == ring[j];
      BlocksApart(size, ring, top, j, k);
    }
    assert forall a :: a in live ==> Apart(p, size[p], a, live[a]);
    hide FreeBlocks, Ring;
  }

  lemma {:induction false} TakeTailBlocks(size: Links, z: Links, ring: seq<int>, top: int, k: nat)
    requires FreeBlocks(size, ring, top) && Gaps(size, ring, 0, -1) && 0 < k < |ring|
    requires forall i :: 0 <= i < |ring| && i != k ==> ring[i] in z && SizeOf(z, ring[i]) == SizeOf(size, ring[i])
    requires ring[k] in z && ring[k] in size && 1 <= z[ring[k]] <= size[ring[k]]
    ensures FreeBlocks(z, ring, top) && Gaps(z, ring, 0, -1)
  {
    forall i | 0 <= i < |ring|
      ensures i > 0 ==> FreeAt(z, ring, top, i)
      ensures GapAt(z, ring, i)
    {
      assert i > 0 ==> FreeAt(size, ring, top, i);
      assert GapAt(size, ring, i);
    }
  }

  /** Neither the remaining head nor the tail meets another block. */
  lemma {:induction false} TakeTailApart(ptr: Links, size: Links, ring: seq<int>, live: Links, top: int, k: nat, n: int)
    requires Heap(ptr, size, ring, live, top) && 0 < k < |ring| && ring[k] in size && 1 <= n < size[ring[k]]
    ensures var p := ring[k];
            var a := p + size[p] - n;
            && a !in live && a !in ring && p !in live && BASE < p && a + n <= top
            && (forall i :: 0 <= i < |ring| && i != k ==> ring[i] != p && ring[i] in size)
            && (forall i :: 0 < i < |ring| && i != k ==> Apart(ring[i], size[ring[i]], p, size[p]))
            && (forall b :: b in live ==> Apart(p, size[p], b, live[b]))
  {
    hide Gaps, Ring;
    var p := ring[k];
    assert FreeAt(size, ring, top, k) && ring[0] == BASE < p;
    assert forall b :: b in live ==> Apart(p, size[p], b, live[b]);
    IsIncreasing(ptr, ring);
    forall i | 0 <= i < |ring| && i != k
      ensures ring[i] in size && ring[i] != p && ring[i] != p + size[p] - n
      ensures i > 0 ==> Apart(ring[i], size[ring[i]], p, size[p])
    {
      if i > 0 {
        BlocksApart(size, ring, top, i, k);
      }
    }
  }

  /** A larger block gives its tail end. */
  lemma {:induction false} TakeTail(ptr: Links, size: Links, ring: seq<int>, live: Links, top: int, k: nat, n: int)
    requires Heap(ptr, size, ring, live, top) && 0 < k < |ring| && ring[k] in size && 1 <= n < size[ring[k]]
    ensures var p := ring[k];
            var a := p + size[p] - n;
            var z, l := size[p := size[p] - n][a := n], live[a := n];
            && a !in live && Heap(ptr, z, ring, l, top)
            && FreeUnits(z, ring) + LiveUnits(l) == FreeUnits(size, ring) + LiveUnits(live)
  {
    hide FreeUnits, LiveUnits, Gaps, Ring, FreeBlocks, LiveBlocks, FreeLiveApart;
    var p := ring[k];
    var a := p + size[p] - n;
    var z, l := size[p := size[p] - n][a := n], live[a := n];
    TakeTailApart(ptr, size, ring, live, top, k, n);
    IsIncreasing(ptr, ring);
    UnitsResize(size, ring, k, size[p] - n);
    UnitsAgree(size[p := size[p] - n], z, ring);
    LiveAdd(live, a, n);
    TakeTailBlocks(size, z, ring, top, k);
    TakeTailLive(size, ring, live, top, k, n);
  }

  lemma {:induction false} TakeTailLive(size: Links, ring: seq<int>, live: Links, top: int, k: nat, n: int)
    requires LiveBlocks(size, live, top) && FreeLiveApart(size, ring, live)
    requires 0 < k < |ring| && ring[k] in size && 1 <= n < size[ring[k]]
    requires var p := ring[k];
             var a := p + size[p] - n;
             && a !in live && a !in ring && p !in live && BASE < p && a + n <= top
             && (forall i :: 0 <= i < |ring| && i != k ==> ring[i] != p && ring[i] in size)
             && (forall i :: 0 < i < |ring| && i != k ==> Apart(ring[i], size[ring[i]], p, size[p]))
             && (forall b :: b in live ==> Apart(p, size[p], b, live[b]))
    ensures var p := ring[k];
            var a := p + size[p] - n;
            var z, l := size[p := size[p] - n][a := n], live[a := n];
            LiveBlocks(z, l, top) && FreeLiveApart(z, ring, l)
  {
    var p := ring[k];
    var a := p + size[p] - n;
    var z, l := size[p := size[p] - n][a := n], live[a := n];
    forall i, b | 0 < i < |ring| && b in l
      ensures ring[i] in z && Apart(ring[i], z[ring[i]], b, l[b])
    {
      if b != a {
        assert Apart(ring[i], size[ring[i]], b, live[b]);
      }
    }
  }

  lemma {:induction false} IsIncreasing(ptr: Links, ring: seq<int>)
    requires Ring(ptr, ring)
    ensures Increasing(ring)
  {
  }

  // ---- walking the ring ----

  /** The index j steps after index i of a ring of n elements. */
  function Ahead(n: nat, i: nat, j: nat): (k: nat)
    requires i < n && j <= n
    ensures k < n
  {
    if i + j < n then i + j else i + j - n
  }

  lemma {:induction false} WalkNext(ptr: Links, ring: seq<int>, i: nat, j: nat)
    requires Ring(ptr, ring) && i < |ring| && j < |ring|
    ensures var a := ring[Ahead(|ring|, i, j)]; a in ptr && ptr[a] == ring[Ahead(|ring|, i, j + 1)]
  {
    assert LinkAt(ptr, ring, Ahead(|ring|, i, j));
  }

  /** The last ring element below a, which exists because a is above base. */
  lemma {:induction false} FindBelow(ring: seq<int>, a: int) returns (t: nat)
    requires |ring| > 0 && ring[0] < a && Increasing(ring) && a !in ring
    ensures Below(ring, t, a)
  {
    t := 0;
    while t + 1 < |ring| && ring[t + 1] < a
      invariant t < |ring| && ring[t] < a
    {
      t := t + 1;
    }
  }

  /** free's search stops at a ring element exactly if the block belongs right behind it. */
  lemma {:induction false} SearchStops(ptr: Links, ring: seq<int>, k: nat, a: int)
    requires Ring(ptr, ring) && k < |ring| && BASE < a && a !in ring
    ensures ring[k] in ptr
    ensures var p, q := ring[k], ptr[ring[k]];
            ((a > p && a < q) || (p >= q && (a > p || a < q))) <==> Below(ring, k, a)
  {
    assert LinkAt(ptr, ring, k);
    if k + 1 == |ring| {
      assert ring[0] <= ring[k];
    }
  }

  lemma {:induction false} BelowUnique(ring: seq<int>, t: nat, k: nat, a: int)
    requires Increasing(ring) && Below(ring, t, a) && Below(ring, k, a)
    ensures t == k
  {
  }

  /** After free, some ring element has at least the freed units. */
  lemma {:induction false} FreedHasRoom(ptr: Links, size: Links, ring: seq<int>, t: nat, bp: int)
    requires t < |ring| && ring[t] in size && bp in size && ring[t] in ptr && ptr[ring[t]] in size && size[ring[t]] >= 0
    requires ptr[ring[t]] == ring[Next(|ring|, t)] && ring[t] < bp && size[ptr[ring[t]]] >= 0
    ensures var z, r := FreedSize(ptr, size, ring[t], bp), FreedRing(size, ring, t, bp);
            exists g :: 0 <= g < |r| && SizeOf(z, r[g]) >= size[bp]
  {
    var z, r := FreedSize(ptr, size, ring[t], bp), FreedRing(size, ring, t, bp);
    if ring[t] + size[ring[t]] == bp {
      assert r[t] == ring[t] && SizeOf(z, r[t]) >= size[bp];
    } else {
      assert r[t + 1] == bp && SizeOf(z, r[t + 1]) >= size[bp];
    }
  }

  /** sbrk memory above everything else joins the heap as one more live block. */
  lemma {:induction false} Grow(ptr: Links, size: Links, ring: seq<int>, live: Links, top: int, hp: int, nu: int)
    requires Heap(ptr, size, ring, live, top) && hp >= top > BASE && nu >= 1
    ensures hp !in live && live[hp := nu] - {hp} == live
    ensures Heap(ptr, size[hp := nu], ring, live[hp := nu], hp + nu)
    ensures FreeUnits(size[hp := nu], ring) + LiveUnits(live[hp := nu]) == FreeUnits(size, ring) + LiveUnits(live) + nu
  {
    var z, l := size[hp := nu], live[hp := nu];
    hide FreeUnits, LiveUnits, Ring, FreeBlocks, Gaps, LiveBlocks, FreeLiveApart;
    GrowBlocks(size, ring, top, hp, nu);
    GrowLive(size, ring, live, top, hp, nu);
    UnitsAgree(size, z, ring);
    LiveAdd(live, hp, nu);
  }

  lemma {:induction false} GrowLive(size: Links, ring: seq<int>, live: Links, top: int, hp: int, nu: int)
    requires LiveBlocks(size, live, top) && FreeLiveApart(size, ring, live) && hp >= top > BASE && nu >= 1
    requires forall i :: 0 < i < |ring| ==> ring[i] in size && ring[i] != hp && ring[i] + size[ring[i]] <= hp
    ensures hp !in live && live[hp := nu] - {hp} == live
    ensures LiveBlocks(size[hp := nu], live[hp := nu], hp + nu)
    ensures FreeLiveApart(size[hp := nu], ring, live[hp := nu])
  {
  }

  lemma {:induction false} GrowBlocks(size: Links, ring: seq<int>, top: int, hp: int, nu: int)
    requires FreeBlocks(size, ring, top) && Gaps(size, ring, 0, -1) && hp >= top > BASE && nu >= 1
    ensures FreeBlocks(size[hp := nu], ring, hp + nu) && Gaps(size[hp := nu], ring, 0, -1)
    ensures forall a :: a in ring ==> a != hp
    ensures forall i :: 0 < i < |ring| ==> ring[i] in size && ring[i] != hp && ring[i] + size[ring[i]] <= hp
  {
    var z := size[hp := nu];
    forall i | 0 <= i < |ring|
      ensures ring[i] != hp && ring[i] in size
      ensures i > 0 ==> FreeAt(z, ring, hp + nu, i) && ring[i] + size[ring[i]] <= hp
      ensures GapAt(z, ring, i)
    {
      assert i > 0 ==> FreeAt(size, ring, top, i);
      assert GapAt(size, ring, i);
    }
  }

  lemma {:induction false} EmptyHeap(ptr: Links, size: Links, top: int)
    requires BASE in ptr && ptr[BASE] == BASE && BASE in size && size[BASE] == 0
    ensures Heap(ptr, size, [BASE], map[], top) && FreeUnits(size, [BASE]) + LiveUnits(map[]) == 0
  {
    UnitsOne(size, BASE);
    assert LinkAt(ptr, [BASE], 0);
  }

  lemma {:induction false} PrevStays(ring: seq<int>, k: nat)
    requires 0 < k < |ring|
    ensures ring[k - 1] in Remove(ring, k)
  {
    assert Remove(ring, k)[k - 1] == ring[k - 1];
  }

  lemma {:induction false} RingFacts(ptr: Links, size: Links, ring: seq<int>, live: Links, top: int)
    requires Heap(ptr, size, ring, live, top)
    ensures Ring(ptr, ring) && Increasing(ring) && |ring| > 0 && ring[0] == BASE && SizeOf(size, BASE) == 0
    ensures forall i :: 0 <= i < |ring| ==> ring[i] in size && size[ring[i]] == SizeOf(size, ring[i])
  {
    NonNegative(size, ring, top);
  }

  /** A block with room is not base, so its predecessor in the walk is its predecessor in the ring. */
  lemma {:induction false} PrevIndex(size: Links, ring: seq<int>, i: nat, s: nat, nunits: nat)
    requires i < |ring| && s < |ring| && nunits >= 1
    requires |ring| > 0 && ring[0] == BASE && SizeOf(size, BASE) == 0
    requires SizeOf(size, ring[Ahead(|ring|, i, s + 1)]) >= nunits
    ensures var k := Ahead(|ring|, i, s + 1); k > 0 && Ahead(|ring|, i, s) == k - 1
  {
  }

  /** The s blocks after index i are too small. */
  ghost predicate Passed(size: Links, ring: seq<int>, i: nat, s: nat, nunits: nat)
    requires i < |ring| && s < |ring|
  {
    forall j :: 0 < j <= s ==> SizeOf(size, ring[Ahead(|ring|, i, j)]) < nunits
  }

  lemma {:induction false} PassedNext(size: Links, ring: seq<int>, i: nat, s: nat, nunits: nat)
    requires i < |ring| && s < |ring|
    ensures Passed(size, ring, i, 0, nunits)
    ensures s + 1 < |ring| && Passed(size, ring, i, s, nunits) && SizeOf(size, ring[Ahead(|ring|, i, s + 1)]) < nunits
            ==> Passed(size, ring, i, s + 1, nunits)
  {
  }

  /** Back at the start of the walk without success, every free block is too small. */
  lemma {:induction false} WentAround(size: Links, ring: seq<int>, i: nat, s: nat, nunits: nat)
    requires i < |ring| && s < |ring| && Increasing(ring) && ring[Ahead(|ring|, i, s + 1)] == ring[i]
    requires SizeOf(size, ring[i]) < nunits && Passed(size, ring, i, s, nunits)
    ensures forall g :: 0 <= g < |ring| ==> SizeOf(size, ring[g]) < nunits
    ensures forall a :: a in ring ==> SizeOf(size, a) < nunits
  {
    var n := |ring|;
    assert Ahead(n, i, s + 1) == i;
    forall g | 0 <= g < n
      ensures SizeOf(size, ring[g]) < nunits
    {
      if g != i {
        var j := if g > i then g - i else g - i + n;
        assert Ahead(n, i, j) == g;
      }
    }
  }

  lemma {:induction false} NotAround(ring: seq<int>, i: nat, s: nat)
    requires i < |ring| && s < |ring| && ring[Ahead(|ring|, i, s + 1)] != ring[i]
    ensures s + 1 < |ring|
  {
  }

  class Allocator {
    var ptr: Links       // header field s.ptr, by header address
    var size: Links      // header field s.size
    var freep: int

    ghost var ring: seq<int>    // the free list in address order, base first
    ghost var live: Links       // blocks handed out and not yet freed
    ghost var top: int          // the end of the memory obtained so far
    ghost var total: int        // units obtained from sbrk

    ghost predicate Valid()
      reads this
    {
      && BASE < top
      && if freep == NULL then live == map[] && total == 0
         else Heap(ptr, size, ring, live, top) && freep in ring
              && FreeUnits(size, ring) + LiveUnits(live) == total
    }

    constructor ()
      ensures Valid() && live == map[] && total == 0 && freep == NULL
    {
      ptr, size, freep := map[], map[], NULL;
      ring, live, top, total := [], map[], BASE + 1, 0;
    }

    /** The search loop of free (malloc.c:94-97). */
    method FindPlace(bp: int) returns (p: int, ghost t: nat)
      requires freep != NULL && Heap(ptr, size, ring, live, top) && freep in ring && bp in live
      ensures Below(ring, t, bp) && p == ring[t]
    {
      assert bp !in ring && BASE < bp by {
        forall i | 0 <= i < |ring|
          ensures ring[i] != bp
        {
          RingNotLive(size, ring, live, top, i);
        }
      }
      t := FindBelow(ring, bp);
      ghost var k :| 0 <= k < |ring| && ring[k] == freep;
      p := freep;
      SearchStops(ptr, ring, k, bp);
      while !(bp > p && bp < ptr[p])
        invariant 0 <= k < |ring| && p == ring[k] && p in ptr
        decreases if k <= t then t - k else t - k + |ring|
      {
        SearchStops(ptr, ring, k, bp);
        if p >= ptr[p] && (bp > p || bp < ptr[p]) {
          break;
        }
        assert k != t;
        WalkNext(ptr, ring, k, 0);
        p := ptr[p];
        k := Next(|ring|, k);
        SearchStops(ptr, ring, k, bp);
      }
      SearchStops(ptr, ring, k, bp);
      BelowUnique(ring, t, k, bp);
    }

    /** free (malloc.c:89-114), given the header address. */
    method Free(bp: int)
      requires Valid() && freep != NULL && bp in live
      modifies this
      ensures Valid() && freep != NULL
      ensures live == old(live) - {bp} && total == old(total) && top == old(top)
      ensures exists g :: 0 <= g < |ring| && SizeOf(size, ring[g]) >= old(live[bp])
    {
      hide Heap, FreeUnits, LiveUnits, FreedRing, Below, Apart;
      var p, t := FindPlace(bp);
      FreeSizes(ptr, size, ring, live, top);
      FreeStep(ptr, size, ring, live, top, t, bp);
      FreeFacts(ptr, size, ring, live, top, t, bp);
      FreedHasRoom(ptr, size, ring, t, bp);
      ghost var size0 := size;
      hide FreedPtr, FreedSize;
      Splice(p, bp);
      freep := p;
      ring := FreedRing(size0, ring, t, bp);
      live := live - {bp};
    }

    /** morecore (malloc.c:27-45). `grant` is what sbrk answers: -1, or the old break, which lies
        at or above everything obtained before. */
    method Morecore(nunits: nat, grant: int) returns (p: int)
      requires Valid() && freep != NULL && nunits >= 1 && (grant == -1 || grant >= top)
      modifies this
      ensures Valid() && freep != NULL && live == old(live) && p == (if grant == -1 then NULL else freep)
      ensures grant == -1 ==> total == old(total) && top == old(top) && ring == old(ring) && size == old(size)
      ensures grant != -1 ==> total == old(total) + Request(nunits) && top == grant + Request(nunits)
                              && exists g :: 0 <= g < |ring| && SizeOf(size, ring[g]) >= nunits
    {
      hide Heap, FreeUnits, LiveUnits;
      var nu := Request(nunits);
      if grant == -1 {
        return NULL;
      }
      var hp := grant;
      Grow(ptr, size, ring, live, top, hp, nu);
      ghost var live0 := live;
      size := size[hp := nu];
      live := live[hp := nu];
      top := hp + nu;
      total := total + nu;
      Free(hp);
      assert live == live0;
      return freep;
    }

    /** Taking units from the free block at p, whose predecessor is prevp (malloc.c:60-69). */
    method Take(prevp: int, p: int, nunits: nat, ghost k: nat) returns (addr: int)
      requires Valid() && freep != NULL && nunits >= 1
      requires 0 < k < |ring| && p == ring[k] && prevp == ring[k - 1] && SizeOf(size, p) >= nunits
      modifies this
      ensures Valid() && freep != NULL && total == old(total) && top == old(top)
      ensures addr - 1 !in old(live) && live == old(live)[addr - 1 := nunits] && addr > BASE
    {
      hide Heap, FreeUnits, LiveUnits;
      AboveBase(ptr, size, ring, live, top, k);
      if size[p] == nunits {
        TakeExact(ptr, size, ring, live, top, k);
        PrevStays(ring, k);
        ptr := ptr[prevp := ptr[p]];
        ring := Remove(ring, k);
        addr := p + 1;
      } else {
        TakeTail(ptr, size, ring, live, top, k, nunits);
        size := size[p := size[p] - nunits];
        var q := p + size[p];
        size := size[q := nunits];
        addr := q + 1;
      }
      live := live[addr - 1 := nunits];
      freep := prevp;
    }

    /** The first call finds no ring and makes one of base alone (malloc.c:53-56). */
    method StartRing()
      requires Valid()
      modifies this`ptr, this`size, this`freep, this`ring
      ensures Valid() && freep != NULL
      ensures old(freep) != NULL ==> ring == old(ring) && size == old(size)
    {
      if freep == NULL {
        ptr, size := ptr[BASE := BASE], size[BASE := 0];
        freep := BASE;
        ring := [BASE];
        EmptyHeap(ptr, size, top);
      }
    }

    /** The walk of malloc's loop (malloc.c:58-72) from freep once around the ring: the first
        block with room and its predecessor, or the news that there is none. */
    method Walk(nunits: nat) returns (found: bool, prevp: int, p: int, ghost k: nat)
      requires Valid() && freep != NULL && nunits >= 1
      ensures found ==> 0 < k < |ring| && p == ring[k] && prevp == ring[k - 1] && SizeOf(size, p) >= nunits
      ensures found <==> exists g :: 0 <= g < |ring| && SizeOf(size, ring[g]) >= nunits
    {
      hide Heap, Ring, Increasing, FreeUnits, LiveUnits, Passed, SizeOf;
      RingFacts(ptr, size, ring, live, top);
      ghost var i :| 0 <= i < |ring| && ring[i] == freep;
      ghost var s := 0;
      PassedNext(size, ring, i, 0, nunits);
      WalkNext(ptr, ring, i, 0);
      prevp := freep;
      p := ptr[prevp];
      while true
        invariant 0 <= s < |ring| && Passed(size, ring, i, s, nunits)
        invariant prevp == ring[Ahead(|ring|, i, s)] && p == ring[Ahead(|ring|, i, s + 1)]
        decreases |ring| - s
      {
        k := Ahead(|ring|, i, s + 1);
        if size[p] >= nunits {
          PrevIndex(size, ring, i, s, nunits);
          return true, prevp, p, k;
        }
        if p == freep {
          WentAround(size, ring, i, s, nunits);
          return false, prevp, p, k;
        }
        NotAround(ring, i, s);
        PassedNext(size, ring, i, s, nunits);
        s := s + 1;
        WalkNext(ptr, ring, i, s);
        prevp := p;
        p := ptr[p];
      }
    }

    /** malloc (malloc.c:47-77), for the requests whose size arithmetic is right (SizeArithmetic).
        Coming back to freep, the loop calls morecore and goes on from the new freep, that is, it
        walks once more; that walk always succeeds. NULL only if sbrk refuses, and memory is
        asked for only if no free block was large enough. */
    method Malloc(nbytes: U32, grant: int) returns (addr: int, ghost grown: bool)
      requires Valid() && nbytes <= 0x8000_0000 - 16 && (grant == -1 || grant >= top)
      modifies this
      ensures Valid() && freep != NULL
      ensures addr == NULL <==> grown && grant == -1
      ensures addr == NULL ==> live == old(live) && total == old(total)
      ensures addr != NULL ==>
                && addr - 1 !in old(live) && live == old(live)[addr - 1 := UnitsFor(nbytes)]
                && 8 * (live[addr - 1] - 1) >= nbytes
                && total == old(total) + (if grown then Request(UnitsFor(nbytes)) else 0)
      ensures old(freep) != NULL ==>
                (grown <==> forall g :: 0 <= g < |old(ring)| ==> SizeOf(old(size), old(ring)[g]) < UnitsFor(nbytes))
    {
      hide Heap, FreeUnits, LiveUnits, UnitsFor, Request, SizeOf, SbrkArgument;
      SizeArithmetic(nbytes);
      var nunits := UnitsFor(nbytes);
      StartRing();
      grown := false;
      var found, prevp, p, k := Walk(nunits);
      if !found {
        grown := true;
        p := Morecore(nunits, grant);
        if p == NULL {
          return NULL, grown;
        }
        found, prevp, p, k := Walk(nunits);
      }
      addr := Take(prevp, p, nunits, k);
    }

    /** The header writes of free (malloc.c:99-111). */
    method Splice(p: int, bp: int)
      requires p in ptr && p in size && bp in size && ptr[p] in ptr && ptr[p] in size && p != bp && ptr[p] != bp
      modifies this`ptr, this`size
      ensures ptr == FreedPtr(old(ptr), old(size), p, bp) && size == FreedSize(old(ptr), old(size), p, bp)
    {
      if bp + size[bp] == ptr[p] {
        size := size[bp := size[bp] + size[ptr[p]]];
        ptr := ptr[bp := ptr[ptr[p]]];
      } else {
        ptr := ptr[bp := ptr[p]];
      }
      if p + size[p] == bp {
        size := size[p := size[p] + size[bp]];
        ptr := ptr[p := ptr[bp]];
      } else {
        ptr := ptr[p := bp];
      }
    }
  }

  lemma {:induction false} FreeSizes(ptr: Links, size: Links, ring: seq<int>, live: Links, top: int)
    requires Heap(ptr, size, ring, live, top)
    ensures forall i :: 0 <= i < |ring| ==> ring[i] in size && size[ring[i]] >= 0
  {
    NonNegative(size, ring, top);
  }

  lemma {:induction false} NonNegative(size: Links, ring: seq<int>, top: int)
    requires FreeBlocks(size, ring, top)
    ensures forall i :: 0 <= i < |ring| ==> ring[i] in size && size[ring[i]] >= 0
  {
    forall i | 0 <= i < |ring|
      ensures ring[i] in size && size[ring[i]] >= 0
    {
      assert i > 0 ==> FreeAt(size, ring, top, i);
    }
  }
}
