/** qsort and bsearch of libc/search.c. An array element stands for `size` bytes, so memswp is
    one exchange and a char pointer is an index. */
module Search {
  import opened Words

  /** A comparator usable for sorting: C's three-way result of a total preorder. */
  ghost predicate TotalPreorder<T(!new)>(compar: (T, T) -> int) {
    && (forall x, y :: compar(x, y) > 0 <==> compar(y, x) < 0)
    && (forall x, y, z :: compar(x, y) <= 0 && compar(y, z) <= 0 ==> compar(x, z) <= 0)
  }

  lemma {:induction false} Flip<T(!new)>(compar: (T, T) -> int, x: T, y: T)
    requires TotalPreorder(compar)
    ensures compar(x, y) > 0 <==> compar(y, x) < 0
    ensures compar(x, y) >= 0 <==> compar(y, x) <= 0
  {
  }

  lemma {:induction false} Trans<T(!new)>(compar: (T, T) -> int, x: T, y: T, z: T)
    requires TotalPreorder(compar) && compar(x, y) <= 0 && compar(y, z) <= 0
    ensures compar(x, z) <= 0
  {
  }

  ghost predicate SortedSeq<T>(s: seq<T>, compar: (T, T) -> int) {
    forall k, l :: 0 <= k < l < |s| ==> compar(s[k], s[l]) <= 0
  }

  // ---- exchanging elements ----

  function Exchanged<T>(s: seq<T>, i: nat, j: nat): seq<T>
    requires i < |s| && j < |s|
  {
    s[i := s[j]][j := s[i]]
  }

  /** `now` is `was` with the elements at lo..hi rearranged. */
  ghost predicate Rearranged<T>(now: seq<T>, was: seq<T>, lo: nat, hi: nat)
    requires lo <= hi <= |was|
  {
    |now| == |was| && now[..lo] == was[..lo] && now[hi..] == was[hi..]
    && multiset(now[lo..hi]) == multiset(was[lo..hi])
  }

  lemma {:induction false} ExchangeRearranges<T>(s: seq<T>, i: nat, j: nat, lo: nat, hi: nat)
    requires lo <= i < hi <= |s| && lo <= j < hi
    ensures Rearranged(Exchanged(s, i, j), s, lo, hi)
  {
    var t := Exchanged(s, i, j);
    var seg := s[lo..hi];
    assert t[lo..hi] == Exchanged(seg, i - lo, j - lo);
    MultisetExchange(seg, i - lo, j - lo);
  }

  lemma {:induction false} MultisetExchange<T>(s: seq<T>, i: nat, j: nat)
    requires i < |s| && j < |s|
    ensures multiset(Exchanged(s, i, j)) == multiset(s)
  {
  }

  lemma {:induction false} RearrangedRefl<T>(s: seq<T>, lo: nat, hi: nat)
    requires lo <= hi <= |s|
    ensures Rearranged(s, s, lo, hi)
  {
  }

  lemma {:induction false} RearrangedTrans<T>(a: seq<T>, b: seq<T>, c: seq<T>, lo: nat, hi: nat)
    requires lo <= hi <= |a| && |b| == |a|
    requires Rearranged(b, a, lo, hi) && Rearranged(c, b, lo, hi)
    ensures Rearranged(c, a, lo, hi)
  {
  }

  /** memswp (search.c:27-35). */
  method Swap<T>(a: array<T>, i: nat, j: nat)
    requires i < a.Length && j < a.Length
    modifies a
    ensures a[..] == Exchanged(old(a[..]), i, j)
  {
    a[i], a[j] := a[j], a[i];
  }

  /** A swap inside lo..hi, keeping track of the rearrangement since `was`. */
  method SwapIn<T>(a: array<T>, i: nat, j: nat, lo: nat, hi: nat, ghost was: seq<T>)
    requires lo <= i < hi <= a.Length == |was| && lo <= j < hi
    requires Rearranged(a[..], was, lo, hi)
    modifies a
    ensures a[..] == Exchanged(old(a[..]), i, j)
    ensures Rearranged(a[..], was, lo, hi)
  {
    Swap(a, i, j);
    ExchangeRearranges(old(a[..]), i, j, lo, hi);
    RearrangedTrans(was, old(a[..]), a[..], lo, hi);
  }

  // ---- partition (search.c:64-107) ----

  /** First, middle and last are put in order so that a[lo + 1] <= a[lo] <= a[hi - 1]. */
  method MedianOfThree<T(!new)>(a: array<T>, lo: nat, hi: nat, compar: (T, T) -> int)
    requires TotalPreorder(compar) && lo + 7 < hi <= a.Length
    modifies a
    ensures Rearranged(a[..], old(a[..]), lo, hi)
    ensures compar(a[lo + 1], a[lo]) <= 0 && compar(a[hi - 1], a[lo]) >= 0
  {
    hide Rearranged, TotalPreorder;
    ghost var was := a[..];
    RearrangedRefl(was, lo, hi);
    var i, j := lo + 1, hi - 1;
    SwapIn(a, lo + (hi - lo) / 2, lo, lo, hi, was);
    Flip(compar, a[i], a[j]);
    if compar(a[i], a[j]) > 0 {
      SwapIn(a, i, j, lo, hi, was);
    }
    ghost var x, p, y := a[i], a[lo], a[j];
    assert compar(x, y) <= 0;
    Flip(compar, p, y);
    if compar(a[lo], a[j]) > 0 {
      Trans(compar, x, y, p);
      SwapIn(a, lo, j, lo, hi, was);
    }
    assert a[i] == x && compar(x, a[j]) <= 0 && compar(a[lo], a[j]) <= 0;
    Flip(compar, a[lo], a[j]);
    Flip(compar, x, a[j]);
    Flip(compar, x, a[lo]);
    if compar(a[i], a[lo]) > 0 {
      SwapIn(a, i, lo, lo, hi, was);
    }
  }

  /** Everything in (lo, i] is at most the pivot a[lo], everything in [j, hi) at least it. */
  ghost predicate Sides<T>(s: seq<T>, compar: (T, T) -> int, lo: nat, i: int, j: int, hi: nat)
    requires hi <= |s| && lo < hi
  {
    && (forall k :: lo < k <= i && k < hi ==> compar(s[k], s[lo]) <= 0)
    && (forall k :: j <= k < hi && lo < k ==> compar(s[k], s[lo]) >= 0)
  }

  /** Move i right until a[i] >= pivot; a[j], or the element after a[i], stops it (lines 87-90). */
  method ScanRight<T>(a: array<T>, lo: nat, hi: nat, compar: (T, T) -> int, i0: nat, j: nat) returns (i: nat)
    requires lo < i0 <= j < hi <= a.Length && (i0 == j ==> j + 1 < hi)
    requires Sides(a[..], compar, lo, i0, j, hi)
    ensures i0 < i < hi && (i0 < j ==> i <= j) && (i0 == j ==> i == j + 1)
    ensures compar(a[i], a[lo]) >= 0
    ensures forall k :: i0 < k < i ==> compar(a[k], a[lo]) <= 0
  {
    i := i0 + 1;
    while compar(a[i], a[lo]) < 0
      invariant i0 < i < hi && (i0 < j ==> i <= j) && (i0 == j ==> i == j + 1)
      invariant forall k :: i0 < k < i ==> compar(a[k], a[lo]) <= 0
      decreases hi - i
    {
      assert a[i] == a[..][i];
      assert i < j;
      i := i + 1;
    }
  }

  /** Move j left until a[j] <= pivot (lines 92-95). */
  method ScanLeft<T>(a: array<T>, lo: nat, hi: nat, compar: (T, T) -> int, i0: nat, j0: nat) returns (j: nat)
    requires lo < i0 <= j0 < hi <= a.Length && (i0 == j0 ==> lo + 1 < i0)
    requires Sides(a[..], compar, lo, i0, j0, hi)
    ensures lo < j < j0 && (i0 < j0 ==> i0 <= j) && (i0 == j0 ==> j == i0 - 1)
    ensures compar(a[j], a[lo]) <= 0
    ensures forall k :: j < k < j0 ==> compar(a[k], a[lo]) >= 0
  {
    j := j0 - 1;
    while compar(a[j], a[lo]) > 0
      invariant lo < j < j0 && (i0 < j0 ==> i0 <= j) && (i0 == j0 ==> j == i0 - 1)
      invariant forall k :: j < k < j0 ==> compar(a[k], a[lo]) >= 0
      decreases j
    {
      assert a[j] == a[..][j];
      assert i0 < j;
      j := j - 1;
    }
  }

  /** The segment is split around the pivot at j: nothing left of j exceeds it, nothing right
      of j is below it, and what lies strictly between j and i equals it. */
  ghost predicate Split<T>(s: seq<T>, compar: (T, T) -> int, lo: nat, j: nat, i: nat, hi: nat)
    requires lo <= j < i <= hi <= |s|
  {
    && (forall k :: lo <= k < i ==> compar(s[k], s[j]) <= 0)
    && (forall k :: j <= k < hi ==> compar(s[j], s[k]) <= 0)
  }

  method Partition<T(!new)>(a: array<T>, lo: nat, hi: nat, compar: (T, T) -> int) returns (i: nat, j: nat)
    requires TotalPreorder(compar) && lo + 7 < hi <= a.Length
    modifies a
    ensures lo < j < i < hi
    ensures Rearranged(a[..], old(a[..]), lo, hi)
    ensures Split(a[..], compar, lo, j, i, hi)
  {
    hide Rearranged, Sides, Split, TotalPreorder;
    ghost var was := a[..];
    MedianOfThree(a, lo, hi, compar);
    SidesStart(a[..], compar, lo, hi);
    i, j := lo + 1, hi - 1;
    while true
      invariant lo < i <= j < hi && (i == j ==> lo + 1 < i && j + 1 < hi)
      invariant Rearranged(a[..], was, lo, hi)
      invariant Sides(a[..], compar, lo, i, j, hi)
      decreases hi - i
    {
      var i0, j0 := i, j;
      i := ScanRight(a, lo, hi, compar, i0, j0);
      j := ScanLeft(a, lo, hi, compar, i0, j0);
      ghost var s := a[..];
      Crossed(s, compar, lo, i0, i, j, j0, hi);
      if i > j {
        break;
      }
      SwapIn(a, i, j, lo, hi, was);
      SidesAfterSwap(s, compar, lo, i0, i, j, j0, hi);
    }
    SplitAfterSwap(a[..], compar, lo, j, i, hi);
    SwapIn(a, lo, j, lo, hi, was);
  }

  lemma {:induction false} SidesStart<T(!new)>(s: seq<T>, compar: (T, T) -> int, lo: nat, hi: nat)
    requires TotalPreorder(compar) && lo + 1 < hi <= |s|
    requires compar(s[lo + 1], s[lo]) <= 0 && compar(s[hi - 1], s[lo]) >= 0
    ensures Sides(s, compar, lo, lo + 1, hi - 1, hi)
  {
  }

  /** After both scans, everything before i is at most the pivot and everything after j at least. */
  lemma {:induction false} Crossed<T>(s: seq<T>, compar: (T, T) -> int, lo: nat, i0: nat, i: nat, j: nat, j0: nat,
                                      hi: nat)
    requires hi <= |s| && lo < i0 < i < hi && lo < j < j0 < hi
    requires Sides(s, compar, lo, i0, j0, hi)
    requires forall k :: i0 < k < i ==> compar(s[k], s[lo]) <= 0
    requires forall k :: j < k < j0 ==> compar(s[k], s[lo]) >= 0
    ensures Sides(s, compar, lo, i - 1, j + 1, hi)
  {
  }

  lemma {:induction false} SplitAfterSwap<T(!new)>(s: seq<T>, compar: (T, T) -> int, lo: nat, j: nat, i: nat, hi: nat)
    requires TotalPreorder(compar) && lo < j < i < hi <= |s|
    requires Sides(s, compar, lo, i - 1, j + 1, hi)
    ensures Split(Exchanged(s, lo, j), compar, lo, j, i, hi)
  {
    var p := s[lo];
    var t := Exchanged(s, lo, j);
    Flip(compar, p, p);
    forall k | lo <= k < i
      ensures compar(t[k], p) <= 0
    {
      assert t[k] == p || t[k] == s[k] || t[k] == s[j];
    }
    forall k | j <= k < hi
      ensures compar(p, t[k]) <= 0
    {
      if k > j {
        Flip(compar, p, s[k]);
      }
    }
  }

  lemma {:induction false} SidesAfterSwap<T>(s: seq<T>, compar: (T, T) -> int, lo: nat, i0: nat, i: nat, j: nat,
                                             j0: nat, hi: nat)
    requires hi <= |s| && lo < i0 < i <= j < j0 < hi
    requires Sides(s, compar, lo, i0, j0, hi)
    requires compar(s[i], s[lo]) >= 0 && forall k :: i0 < k < i ==> compar(s[k], s[lo]) <= 0
    requires compar(s[j], s[lo]) <= 0 && forall k :: j < k < j0 ==> compar(s[k], s[lo]) >= 0
    ensures Sides(Exchanged(s, i, j), compar, lo, i, j, hi)
  {
  }

  // ---- insertion sort (search.c:119-128) ----

  /** s[lo..i] is in order but for the element at `hole`, which may be too small for its place. */
  ghost predicate SortedBut<T>(s: seq<T>, compar: (T, T) -> int, lo: nat, i: int, hole: int)
    requires i < |s|
  {
    forall k, l :: lo <= k < l <= i && l != hole ==> compar(s[k], s[l]) <= 0
  }

  lemma {:induction false} NewHole<T>(s: seq<T>, compar: (T, T) -> int, lo: nat, i: nat)
    requires i < |s| && SortedBut(s, compar, lo, i - 1, lo)
    ensures SortedBut(s, compar, lo, i, i)
  {
  }

  lemma {:induction false} SinkOne<T(!new)>(s: seq<T>, compar: (T, T) -> int, lo: nat, i: nat, j: nat)
    requires TotalPreorder(compar) && lo <= j < i < |s|
    requires SortedBut(s, compar, lo, i, j + 1) && compar(s[j], s[j + 1]) > 0
    ensures SortedBut(Exchanged(s, j, j + 1), compar, lo, i, j)
  {
    Flip(compar, s[j], s[j + 1]);
  }

  lemma {:induction false} Settle<T(!new)>(s: seq<T>, compar: (T, T) -> int, lo: nat, i: nat, j: nat)
    requires TotalPreorder(compar) && lo <= j < i < |s|
    requires SortedBut(s, compar, lo, i, j + 1) && compar(s[j], s[j + 1]) <= 0
    ensures SortedBut(s, compar, lo, i, lo)
  {
    forall k, l | lo <= k < l <= i
      ensures compar(s[k], s[l]) <= 0
    {
      if l == j + 1 && k < j {
        Trans(compar, s[k], s[j], s[j + 1]);
      }
    }
  }

  /** The inner loop: a[i] sinks to its place among a[lo..i). */
  method Insert<T(!new)>(a: array<T>, lo: nat, i: nat, hi: nat, compar: (T, T) -> int, ghost was: seq<T>)
    requires TotalPreorder(compar) && lo < i < hi <= a.Length == |was|
    requires Rearranged(a[..], was, lo, hi)
    requires SortedBut(a[..], compar, lo, i - 1, lo)
    modifies a
    ensures Rearranged(a[..], was, lo, hi)
    ensures SortedBut(a[..], compar, lo, i, lo)
  {
    hide Rearranged, SortedBut, TotalPreorder;
    NewHole(a[..], compar, lo, i);
    var j := i - 1;
    while compar(a[j], a[j + 1]) > 0
      invariant lo <= j < i
      invariant Rearranged(a[..], was, lo, hi)
      invariant SortedBut(a[..], compar, lo, i, j + 1)
      decreases j
    {
      SinkOne(a[..], compar, lo, i, j);
      SwapIn(a, j, j + 1, lo, hi, was);
      if j == lo {
        return;
      }
      j := j - 1;
    }
    Settle(a[..], compar, lo, i, j);
  }

  method InsertionSort<T(!new)>(a: array<T>, lo: nat, hi: nat, compar: (T, T) -> int)
    requires TotalPreorder(compar) && lo <= hi <= a.Length
    modifies a
    ensures Rearranged(a[..], old(a[..]), lo, hi)
    ensures SortedBut(a[..], compar, lo, hi - 1, lo)
  {
    ghost var was := a[..];
    var i := lo + 1;
    while i < hi
      invariant lo < i && (lo < hi ==> i <= hi)
      invariant Rearranged(a[..], was, lo, hi)
      invariant lo < hi ==> SortedBut(a[..], compar, lo, i - 1, lo)
    {
      Insert(a, lo, i, hi, compar, was);
      i := i + 1;
    }
  }

  // ---- the explicit stack ----

  /** A segment still to be sorted: base (inclusive) and limit (exclusive). */
  datatype Segment = Segment(base: nat, limit: nat)

  ghost predicate Together(segs: seq<Segment>, k: nat, l: nat) {
    exists s :: s in segs && s.base <= k && l < s.limit
  }

  /** The progress invariant: elements no pending segment holds together are in order. */
  ghost predicate SortedApart<T>(s: seq<T>, compar: (T, T) -> int, segs: seq<Segment>) {
    forall k: nat, l: nat :: k < l < |s| && !Together(segs, k, l) ==> compar(s[k], s[l]) <= 0
  }

  predicate Disjoint(s: Segment, t: Segment) {
    s.limit <= t.base || t.limit <= s.base
  }

  /** Rearranging one pending segment keeps the order between it and everything else. */
  lemma {:induction false} RearrangeKeepsOutside<T>(now: seq<T>, was: seq<T>, compar: (T, T) -> int, segs: seq<Segment>,
                                                    cur: Segment)
    requires cur.base <= cur.limit <= |was| && Rearranged(now, was, cur.base, cur.limit)
    requires SortedApart(was, compar, segs + [cur])
    requires forall s :: s in segs ==> Disjoint(s, cur)
    ensures forall k: nat, l: nat :: k < l < |now| && !(cur.base <= k && l < cur.limit) && !Together(segs, k, l)
              ==> compar(now[k], now[l]) <= 0
  {
    forall k: nat, l: nat | k < l < |now| && !(cur.base <= k && l < cur.limit) && !Together(segs, k, l)
      ensures compar(now[k], now[l]) <= 0
    {
      var k' := Origin(now, was, cur.base, cur.limit, k);
      var l' := Origin(now, was, cur.base, cur.limit, l);
      assert k' < l';
      assert !Together(segs + [cur], k', l');
    }
  }

  lemma {:induction false} Origin<T>(now: seq<T>, was: seq<T>, lo: nat, hi: nat, k: nat) returns (k': nat)
    requires lo <= hi <= |was| && Rearranged(now, was, lo, hi) && k < |now|
    ensures k' < |was| && was[k'] == now[k]
    ensures if lo <= k < hi then lo <= k' < hi else k' == k
  {
    if lo <= k < hi {
      assert now[lo..hi][k - lo] in multiset(was[lo..hi]);
      var m :| 0 <= m < hi - lo && was[lo..hi][m] == now[k];
      k' := lo + m;
    } else {
      k' := k;
      if k < lo {
        assert now[..lo][k] == was[..lo][k];
      } else {
        assert now[hi..][k - hi] == was[hi..][k - hi];
      }
    }
  }

  lemma {:induction false} NotTogether(segs: seq<Segment>, s: Segment, k: nat, l: nat)
    requires s in segs && !Together(segs, k, l)
    ensures !(s.base <= k && l < s.limit)
  {
  }

  /** Splitting the current segment at its pivot leaves the two outer parts pending. */
  lemma {:induction false} SplitStep<T(!new)>(now: seq<T>, was: seq<T>, compar: (T, T) -> int,
                           segs: seq<Segment>, cur: Segment, j: nat, i: nat, segs': seq<Segment>)
    requires TotalPreorder(compar) && cur.base <= j < i <= cur.limit <= |was|
    requires Rearranged(now, was, cur.base, cur.limit)
    requires Split(now, compar, cur.base, j, i, cur.limit)
    requires SortedApart(was, compar, segs + [cur]) && forall s :: s in segs ==> Disjoint(s, cur)
    requires Segment(cur.base, j) in segs' && Segment(i, cur.limit) in segs'
    requires forall s :: s in segs ==> s in segs'
    ensures SortedApart(now, compar, segs')
  {
    RearrangeKeepsOutside(now, was, compar, segs, cur);
    forall k: nat, l: nat | k < l < |now| && !Together(segs', k, l)
      ensures compar(now[k], now[l]) <= 0
    {
      assert !Together(segs, k, l);
      if cur.base <= k && l < cur.limit {
        NotTogether(segs', Segment(cur.base, j), k, l);
        NotTogether(segs', Segment(i, cur.limit), k, l);
        Trans(compar, now[k], now[j], now[l]);
      }
    }
  }

  /** Sorting the current segment takes it off the pending list. */
  lemma {:induction false} SortStep<T(!new)>(now: seq<T>, was: seq<T>, compar: (T, T) -> int, segs: seq<Segment>,
                                             cur: Segment)
    requires cur.base <= cur.limit <= |was|
    requires Rearranged(now, was, cur.base, cur.limit)
    requires SortedBut(now, compar, cur.base, cur.limit - 1, cur.base)
    requires SortedApart(was, compar, segs + [cur]) && forall s :: s in segs ==> Disjoint(s, cur)
    ensures SortedApart(now, compar, segs)
  {
    RearrangeKeepsOutside(now, was, compar, segs, cur);
  }

  function Size(s: Segment): nat {
    if s.base <= s.limit then s.limit - s.base else 0
  }

  /** The pending segments and the current one lie in the array and do not overlap. */
  ghost predicate WellPlaced(segs: seq<Segment>, n: nat) {
    && (forall k :: 0 <= k < |segs| ==> segs[k].base <= segs[k].limit <= n)
    && (forall k, l :: 0 <= k < l < |segs| ==> Disjoint(segs[k], segs[l]))
  }

  /** Depth k of the stack holds at most n / 2^k elements, because the larger part is pushed. */
  ghost predicate Halving(segs: seq<Segment>, n: nat) {
    forall k :: 0 <= k < |segs| ==> Size(segs[k]) * Pow2(k) <= n
  }

  lemma {:induction false} HalvingStep(segs: seq<Segment>, cur: Segment, push: Segment, next: Segment, n: nat)
    requires Halving(segs + [cur], n)
    requires Size(push) <= Size(cur) && 2 * Size(next) <= Size(cur)
    ensures Halving(segs + [push] + [next], n)
  {
    var before, after, d := segs + [cur], segs + [push] + [next], |segs|;
    assert before[d] == cur;
    forall k | 0 <= k < |after|
      ensures Size(after[k]) * Pow2(k) <= n
    {
      if k < d {
        assert after[k] == before[k];
      } else if k == d {
        MulMono(Size(push), Size(cur), Pow2(d));
      } else {
        MulMono(2 * Size(next), Size(cur), Pow2(d));
        assert Size(next) * Pow2(d + 1) == (2 * Size(next)) * Pow2(d);
      }
    }
  }

  /** More than seven elements at depth d of fewer than 2^32 means d < 29. */
  lemma {:induction false} DepthBound(segs: seq<Segment>, cur: Segment, n: nat)
    requires Halving(segs + [cur], n) && n < W32 && Size(cur) > 7
    ensures |segs| < 29
  {
    var d := |segs|;
    assert (segs + [cur])[d] == cur;
    if d >= 29 {
      hide Pow2;
      Pow2Add(29, d - 29);
      Pow2TwentyNine();
      MulMono(1, Pow2(d - 29), Pow2(29));
      MulMono(8, Size(cur), Pow2(d));
    }
  }

  lemma {:induction false} Pow2TwentyNine()
    ensures Pow2(29) == 0x2000_0000
  {
    Pow2Add(16, 13);
    Pow2Add(8, 5);
    Pow2Add(4, 4);
    Pow2Sixteen();
  }

  function Work(segs: seq<Segment>): nat {
    if segs == [] then 0 else Work(segs[..|segs| - 1]) + 2 * Size(segs[|segs| - 1]) + 1
  }

  lemma {:induction false} WorkPush(segs: seq<Segment>, s: Segment)
    ensures Work(segs + [s]) == Work(segs) + 2 * Size(s) + 1
  {
    assert (segs + [s])[..|segs|] == segs;
  }

  /** The segments on the stack: a base and a limit per entry. */
  function Entries(stack: seq<nat>): (segs: seq<Segment>)
    requires |stack| % 2 == 0
    ensures |segs| == |stack| / 2
  {
    if stack == [] then []
    else Entries(stack[..|stack| - 2]) + [Segment(stack[|stack| - 2], stack[|stack| - 1])]
  }

  lemma {:induction false} EntriesPush(stack: seq<nat>, base: nat, limit: nat)
    requires |stack| % 2 == 0
    ensures Entries(stack + [base, limit]) == Entries(stack) + [Segment(base, limit)]
  {
    assert (stack + [base, limit])[..|stack|] == stack;
  }

  /** The state of the outer loop: `segs` on the stack, `cur` being worked on. */
  ghost predicate Progress<T>(s: seq<T>, was: seq<T>, compar: (T, T) -> int, segs: seq<Segment>, cur: Segment) {
    && |s| == |was| && multiset(s) == multiset(was)
    && WellPlaced(segs + [cur], |s|)
    && Halving(segs + [cur], |s|)
    && SortedApart(s, compar, segs + [cur])
  }

  lemma {:induction false} ProgressStart<T>(s: seq<T>, compar: (T, T) -> int)
    ensures Progress(s, s, compar, [], Segment(0, |s|))
  {
    var cur := Segment(0, |s|);
    assert [] + [cur] == [cur];
    forall k: nat, l: nat | k < l < |s|
      ensures Together([cur], k, l)
    {
      assert cur in [cur];
    }
  }

  lemma {:induction false} RearrangedWhole<T>(now: seq<T>, was: seq<T>, lo: nat, hi: nat)
    requires lo <= hi <= |was| && Rearranged(now, was, lo, hi)
    ensures multiset(now) == multiset(was)
  {
    assert now == now[..lo] + now[lo..hi] + now[hi..];
    assert was == was[..lo] + was[lo..hi] + was[hi..];
  }

  lemma {:induction false} ProgressSplit<T(!new)>(now: seq<T>, prev: seq<T>, was: seq<T>, compar: (T, T) -> int,
                               segs: seq<Segment>, cur: Segment, j: nat, i: nat, push: Segment, next: Segment)
    requires TotalPreorder(compar) && Progress(prev, was, compar, segs, cur)
    requires cur.base <= j < i <= cur.limit <= |prev|
    requires Rearranged(now, prev, cur.base, cur.limit) && Split(now, compar, cur.base, j, i, cur.limit)
    requires {push, next} == {Segment(cur.base, j), Segment(i, cur.limit)} && Size(next) <= Size(push)
    ensures Progress(now, was, compar, segs + [push], next)
    ensures Work(segs + [push] + [next]) < Work(segs + [cur])
  {
    assert (push == Segment(cur.base, j) && next == Segment(i, cur.limit))
        || (next == Segment(cur.base, j) && push == Segment(i, cur.limit));
    var before, after := segs + [cur], segs + [push] + [next];
    RearrangedWhole(now, prev, cur.base, cur.limit);
    assert before[|segs|] == cur;
    forall s | s in segs
      ensures Disjoint(s, cur)
    {
      var k :| 0 <= k < |segs| && segs[k] == s;
      assert before[k] == s;
    }
    assert after[|segs|] == push && after[|segs| + 1] == next;
    SplitStep(now, prev, compar, segs, cur, j, i, after);
    HalvingStep(segs, cur, push, next, |now|);
    PlacedSplit(segs, cur, push, next, |now|);
    WorkPush(segs, cur);
    WorkPush(segs, push);
    WorkPush(segs + [push], next);
  }

  lemma {:induction false} PlacedSplit(segs: seq<Segment>, cur: Segment, push: Segment, next: Segment, n: nat)
    requires WellPlaced(segs + [cur], n)
    requires cur.base <= push.base <= push.limit <= cur.limit && cur.base <= next.base <= next.limit <= cur.limit
    requires Disjoint(push, next)
    ensures WellPlaced(segs + [push] + [next], n)
  {
    var before, after, d := segs + [cur], segs + [push] + [next], |segs|;
    assert before[d] == cur;
    forall k | 0 <= k < |after|
      ensures after[k].base <= after[k].limit <= n
    {
      assert k < d ==> after[k] == before[k];
    }
    forall k, l | 0 <= k < l < |after|
      ensures Disjoint(after[k], after[l])
    {
      assert k < d ==> after[k] == before[k];
      assert l < d ==> after[l] == before[l];
      if k < d {
        assert Disjoint(before[k], before[d]);
      }
    }
  }

  lemma {:induction false} ProgressSorted<T(!new)>(now: seq<T>, prev: seq<T>, was: seq<T>, compar: (T, T) -> int,
                                segs: seq<Segment>, cur: Segment)
    requires Progress(prev, was, compar, segs, cur)
    requires cur.base <= cur.limit <= |prev|
    requires Rearranged(now, prev, cur.base, cur.limit)
    requires SortedBut(now, compar, cur.base, cur.limit - 1, cur.base)
    ensures SortedApart(now, compar, segs) && multiset(now) == multiset(was)
    ensures WellPlaced(segs, |now|) && Halving(segs, |now|)
    ensures Work(segs) < Work(segs + [cur])
  {
    var before := segs + [cur];
    RearrangedWhole(now, prev, cur.base, cur.limit);
    assert before[|segs|] == cur;
    forall s | s in segs
      ensures Disjoint(s, cur)
    {
      var k :| 0 <= k < |segs| && segs[k] == s;
      assert before[k] == s;
    }
    SortStep(now, prev, compar, segs, cur);
    WorkPush(segs, cur);
    assert forall k :: 0 <= k < |segs| ==> segs[k] == before[k];
  }

  lemma {:induction false} ProgressPop<T>(s: seq<T>, was: seq<T>, compar: (T, T) -> int, segs: seq<Segment>,
                                          cur: Segment)
    requires |s| == |was| && multiset(s) == multiset(was)
    requires WellPlaced(segs + [cur], |s|) && Halving(segs + [cur], |s|) && SortedApart(s, compar, segs + [cur])
    ensures Progress(s, was, compar, segs, cur) && cur.base <= cur.limit <= |s|
  {
    assert (segs + [cur])[|segs|] == cur;
  }

  lemma {:induction false} NothingPending<T>(s: seq<T>, compar: (T, T) -> int)
    requires SortedApart(s, compar, [])
    ensures SortedSeq(s, compar)
  {
    forall k, l | 0 <= k < l < |s|
      ensures compar(s[k], s[l]) <= 0
    {
      assert !Together([], k, l);
    }
  }

  /** PUSH (search.c:44): one entry, two slots. */
  method Push(stack: array<nat>, sp: nat, base: nat, limit: nat, ghost segs: seq<Segment>)
    returns (ghost segs': seq<Segment>)
    requires sp + 2 <= stack.Length && sp == 2 * |segs| && segs == Entries(stack[..sp])
    modifies stack
    ensures segs' == segs + [Segment(base, limit)] == Entries(stack[..sp + 2])
  {
    hide Entries;
    ghost var below := stack[..sp];
    EntriesPush(below, base, limit);
    stack[sp], stack[sp + 1] := base, limit;
    assert stack[..sp + 2] == below + [base, limit];
    segs' := segs + [Segment(base, limit)];
  }

  /** POP (search.c:45): the entry on top of the stack. */
  lemma {:induction false} EntriesPop(stack: seq<nat>, sp: nat, segs: seq<Segment>)
    requires sp + 2 <= |stack| && sp + 2 == 2 * |segs| && segs == Entries(stack[..sp + 2])
    ensures segs == Entries(stack[..sp]) + [Segment(stack[sp], stack[sp + 1])]
    ensures Entries(stack[..sp]) == segs[..|segs| - 1]
  {
    hide Entries;
    EntriesPush(stack[..sp], stack[sp], stack[sp + 1]);
    assert stack[..sp + 2] == stack[..sp] + [stack[sp], stack[sp + 1]];
  }

  /** qsort (search.c:53-137). The stack has STACKSIZE = 64 slots, two per entry. */
  method QSort<T(!new)>(a: array<T>, compar: (T, T) -> int)
    requires TotalPreorder(compar) && a.Length < W32
    modifies a
    ensures SortedSeq(a[..], compar)
    ensures multiset(a[..]) == multiset(old(a[..]))
  {
    hide Progress, SortedSeq, TotalPreorder, Work, Entries, Rearranged, Split, SortedBut, SortedApart, WellPlaced,
         Halving;
    ghost var was := a[..];
    var stack := new nat[64];
    var sp := 0;
    var base: nat, limit: nat := 0, a.Length;
    ghost var segs: seq<Segment> := [];
    ProgressStart(was, compar);
    EntriesNone();
    assert stack[..0] == [];
    while true
      invariant 0 <= sp == 2 * |segs| <= 64
      invariant segs == Entries(stack[..sp])
      invariant base <= limit <= a.Length
      invariant Progress(a[..], was, compar, segs, Segment(base, limit))
      decreases Work(segs + [Segment(base, limit)])
    {
      ghost var s, cur := a[..], Segment(base, limit);
      if limit - base > 7 {
        StackHasRoom(s, was, compar, segs, cur);
        var i, j := Partition(a, base, limit, compar);
        if j - base > limit - i {
          ProgressSplit(a[..], s, was, compar, segs, cur, j, i, Segment(base, j), Segment(i, limit));
          segs := Push(stack, sp, base, j, segs);
          base := i;
        } else {
          ProgressSplit(a[..], s, was, compar, segs, cur, j, i, Segment(i, limit), Segment(base, j));
          segs := Push(stack, sp, i, limit, segs);
          limit := j;
        }
        sp := sp + 2;
      } else {
        InsertionSort(a, base, limit, compar);
        ProgressSorted(a[..], s, was, compar, segs, cur);
        if sp == 0 {
          NothingPending(a[..], compar);
          break;
        }
        sp := sp - 2;
        base, limit := stack[sp], stack[sp + 1];
        EntriesPop(stack[..], sp, segs);
        assert stack[..][..sp] == stack[..sp];
        segs := segs[..|segs| - 1];
        ProgressPop(a[..], was, compar, segs, Segment(base, limit));
      }
    }
  }

  lemma {:induction false} EntriesNone()
    ensures Entries([]) == []
  {
  }

  lemma {:induction false} StackHasRoom<T>(s: seq<T>, was: seq<T>, compar: (T, T) -> int, segs: seq<Segment>,
                                           cur: Segment)
    requires Progress(s, was, compar, segs, cur) && |s| < W32 && Size(cur) > 7
    ensures 2 * |segs| + 2 <= 58
  {
    DepthBound(segs, cur, |s|);
  }

  // ---- bsearch (search.c:3-25) ----

  /** What bsearch asks of its array: first elements below the key, then equal, then above. */
  ghost predicate Ordered<K, T>(key: K, s: seq<T>, compar: (K, T) -> int) {
    forall k, l :: 0 <= k < l < |s| ==>
      (compar(key, s[k]) < 0 ==> compar(key, s[l]) < 0) && (compar(key, s[l]) > 0 ==> compar(key, s[k]) > 0)
  }

  /** The loop keeps base and nmemb; `corr` fixes the size of the right half. -1 is NULL. */
  method BSearch<K, T>(key: K, s: seq<T>, compar: (K, T) -> int) returns (found: int)
    requires Ordered(key, s, compar)
    ensures -1 <= found < |s|
    ensures found >= 0 ==> compar(key, s[found]) == 0
    ensures found == -1 <==> forall k :: 0 <= k < |s| ==> compar(key, s[k]) != 0
  {
    var base, nmemb := 0, |s|;
    while nmemb > 0
      invariant 0 <= base && 0 <= nmemb && base + nmemb <= |s|
      invariant forall k :: 0 <= k < base ==> compar(key, s[k]) > 0
      invariant forall k :: base + nmemb <= k < |s| ==> compar(key, s[k]) < 0
      decreases nmemb
    {
      var corr := nmemb % 2;
      nmemb := nmemb / 2;
      var pivot := base + nmemb;
      var rc := compar(key, s[pivot]);
      if rc > 0 {
        base := pivot + 1;
        nmemb := nmemb - (1 - corr);
      } else if rc == 0 {
        return pivot;
      }
    }
    return -1;
  }
}
