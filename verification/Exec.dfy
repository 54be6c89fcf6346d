/** The user stack that execve builds (kernel/exec.c:68-149), and what a program finds when it follows
    its pointers from the initial stack pointer. */
module Exec {
  import opened Words
  import opened Vm

  const MAXARG := 32
  const USTACK := 4 + MAXARG * 2 + 2

  // ---- reading words and strings from user memory ----

  function WordAt(img: seq<Byte>, a: nat): U32 {
    if a + 4 <= |img| then Join(img[a], img[a + 1], img[a + 2], img[a + 3]) else 0
  }

  /** The bytes of an array of words. */
  function WordBytes(ws: seq<U32>): (s: seq<Byte>)
    ensures |s| == 4 * |ws|
  {
    seq(4 * |ws|, (k: nat) requires k < 4 * |ws| => ByteOf(ws[k / 4], k % 4))
  }

  lemma {:induction false} WordsRead(img: seq<Byte>, va: nat, ws: seq<U32>, k: nat)
    requires va + 4 * |ws| <= |img| && k < |ws|
    ensures WordAt(Over(img, va, WordBytes(ws)), va + 4 * k) == ws[k]
  {
    var r := Over(img, va, WordBytes(ws));
    var a := va + 4 * k;
    assert (4 * k) / 4 == k && (4 * k + 1) / 4 == k && (4 * k + 2) / 4 == k && (4 * k + 3) / 4 == k;
    assert r[a] == WordBytes(ws)[4 * k] && r[a + 1] == WordBytes(ws)[4 * k + 1];
    assert r[a + 2] == WordBytes(ws)[4 * k + 2] && r[a + 3] == WordBytes(ws)[4 * k + 3];
    JoinBytes(ws[k]);
  }

  /** The C string s stands at address p, all of it at or above lo. */
  ghost predicate HasString(img: seq<Byte>, p: nat, s: seq<Byte>, lo: nat) {
    lo <= p && p + |s| + 1 <= |img| && img[p..p + |s|] == s && img[p + |s|] == 0
  }

  /** The pointers to the strings, at or above lo. */
  ghost predicate Strings(img: seq<Byte>, ps: seq<nat>, strs: seq<seq<Byte>>, lo: nat) {
    |ps| == |strs| && forall j :: 0 <= j < |ps| ==> HasString(img, ps[j], strs[j], lo)
  }

  /** A NULL-terminated array of pointers at address t, leading to the strings; all at or above lo. */
  ghost predicate ListAt(img: seq<Byte>, t: nat, strs: seq<seq<Byte>>, lo: nat) {
    && lo <= t && t + 4 * |strs| + 4 <= |img| && WordAt(img, t + 4 * |strs|) == 0
    && forall j :: 0 <= j < |strs| ==> HasString(img, WordAt(img, t + 4 * j), strs[j], lo)
  }

  ghost predicate SameAbove(img: seq<Byte>, img': seq<Byte>, lo: nat) {
    |img'| == |img| && forall a :: lo <= a < |img| ==> img'[a] == img[a]
  }

  ghost predicate ZeroBetween(img: seq<Byte>, lo: nat, hi: nat) {
    hi <= |img| && forall a :: lo <= a < hi ==> img[a] == 0
  }

  // ---- the memory execve prepares ----

  /** The stack page below top is zero and accessible, and the page below it is not for users. */
  ghost predicate StackReady(mem: Mem, d: nat, top: nat) {
    && top % PGSIZE == 0 && 2 * PGSIZE <= top <= USERPAGES * PGSIZE && top < W32
    && !UserOk(Pte(mem, d, top / PGSIZE - 2)) && UserOk(Pte(mem, d, top / PGSIZE - 1)) && KernelOnly(mem, d)
    && ZeroBetween(Image(mem, d, top), top - PGSIZE, top)
  }

  /** Every page of the image is mapped. */
  ghost predicate Whole(pgs: Tabs, top: nat) {
    forall v: nat :: v < top / PGSIZE ==> v in pgs
  }

  /** Every page of the kernel's half has a table. */
  ghost predicate KernelTables(mem: Mem, d: nat) {
    forall v: nat :: USERPAGES <= v < PAGES ==> Present(Pde(mem, d, v))
  }

  /** Inside the image, copyout finds a table for every page. */
  lemma {:induction false} WholeTables(mem: Mem, d: nat, tabs: Tabs, pgs: Tabs, mem0: Mem, top: nat, sp: nat, va: nat,
                                       n: nat)
    requires Space(mem, d, tabs, pgs) && AllData(mem, pgs) && Whole(pgs, top) && Building(mem0, d, top, sp)
             && va + n <= top
    ensures TableRange(mem, d, va, n)
  {
    hide Space, AllData, Pde, Pte, UserOk, IsTable, Image, ZeroBetween, KernelOnly, Aligned;
    forall a: nat | va <= a < va + n
      ensures Present(Pde(mem, d, a / PGSIZE))
    {
      PageBelow(a, top);
      WalkFacts(mem, d, tabs, pgs, a / PGSIZE);
    }
  }

  lemma {:induction false} PageBelow(a: nat, top: nat)
    requires a < top <= USERPAGES * PGSIZE && top % PGSIZE == 0
    ensures a / PGSIZE < top / PGSIZE && a / PGSIZE < USERPAGES
  {
  }

  /** Allocate two pages and make the first inaccessible (exec.c:68-77). If the free pages run out at the
      stack page's table, allocuvm says nothing: the image is then without its stack page. */
  method PrepareStack(m: Machine, d: nat, sz: nat, ghost tabs: Tabs, ghost pgs: Tabs, ghost home: set<nat>)
    returns (ok: bool, top: nat, ghost tabs': Tabs, ghost pgs': Tabs)
    requires m.Builds(d, tabs, pgs, home) && AllData(m.mem, pgs) && KernelOnly(m.mem, d)
    requires sz % PGSIZE == 0 && sz <= USERPAGES * PGSIZE
    requires forall v :: v in pgs <==> 0 <= v < sz / PGSIZE
    modifies m
    ensures top == sz + 2 * PGSIZE
    ensures var v, n := sz / PGSIZE, |old(m.free)|;
            && (ok <==> top < USERPAGES * PGSIZE
                        && (Enough(tabs.Keys, v, v + 2, n) || LeftOut(tabs.Keys, v, v + 2, n)))
            && (ok && Enough(tabs.Keys, v, v + 2, n) ==>
                  m.Builds(d, tabs', pgs', home) && AllData(m.mem, pgs') && StackReady(m.mem, d, top)
                  && Whole(pgs', top))
            && (ok && LeftOut(tabs.Keys, v, v + 2, n) ==> !Present(Pde(m.mem, d, v + 1)))
  {
    hide Space, SamePtes, Pte, Pde, UserOk, Image, ZeroBetween, Fresh, KernelOnly, Grown, SameApart, Needs, LastBare;
    top := sz + 2 * PGSIZE;
    ghost var v := sz / PGSIZE;
    StackPages(sz);
    ghost var before := m.mem;
    var r;
    ok, r, tabs', pgs' := m.AllocUvm(d, sz, top, tabs, pgs, home);
    if !ok {
      return;
    }
    KernelOnlyApart(before, m.mem, d, v, v + 2);
    ghost var grown := m.mem;
    GrownFirst(before, m.mem, d, tabs', pgs, pgs', v,
               if Enough(tabs.Keys, v, v + 2, |old(m.free)|) then v + 2 else v + 1);
    ok := m.ClearPteU(d, r / PGSIZE - 2, tabs', pgs', home);
    KernelOnlyStays(grown, m.mem, d, v);
    if Enough(tabs.Keys, v, v + 2, |old(m.free)|) {
      StackGrown(before, grown, d, pgs, pgs', v);
      OtherPte(grown, m.mem, d, v, v + 1);
      ZeroPage(m.mem, d, tabs', pgs', v + 1, top);
    }
  }

  lemma {:induction false} StackPages(sz: nat)
    requires sz % PGSIZE == 0
    ensures Pages(sz) == sz / PGSIZE && Pages(sz + 2 * PGSIZE) == sz / PGSIZE + 2
  {
  }

  lemma {:induction false} KernelOnlyApart(mem: Mem, mem': Mem, d: nat, a: nat, b: nat)
    requires KernelOnly(mem, d) && SameApart(mem, mem', d, a, b) && b <= USERPAGES
    ensures KernelOnly(mem', d)
  {
    hide Pte, UserOk;
  }

  lemma {:induction false} GrownFirst(mem: Mem, mem': Mem, d: nat, tabs: Tabs, pgs: Tabs, pgs': Tabs, v: nat, b: nat)
    requires Grown(mem, mem', d, pgs, pgs', v, b) && v < b && Space(mem', d, tabs, pgs') && v < USERPAGES
    ensures Present(Pde(mem', d, v))
  {
    assert NewAt(mem', d, pgs', v);
    HasTable(mem', d, v);
  }

  lemma {:induction false} StackGrown(mem: Mem, mem': Mem, d: nat, pgs: Tabs, pgs': Tabs, v: nat)
    requires Grown(mem, mem', d, pgs, pgs', v, v + 2) && forall w :: w in pgs <==> 0 <= w < v
    ensures Whole(pgs', (v + 2) * PGSIZE) && NewAt(mem', d, pgs', v + 1)
  {
  }

  /** When the stack page is left out: it is the first page of a table there is not, and the free pages
      are used up by the two pages and the guard page's table. */
  lemma {:induction false} StackLeftOut(have: set<nat>, v: nat, n: nat)
    ensures LeftOut(have, v, v + 2, n) <==>
              && (v + 1) % ENTRIES == 0 && (v + 1) / ENTRIES !in have
              && n == if v / ENTRIES in have then 2 else 3
  {
    LastBareAt(have, v, v + 2);
    assert Needs(have + {v / ENTRIES} + {(v + 1) / ENTRIES}, v + 2, v + 2) == 0;
    assert Needs(have, v, v + 2) == (if v / ENTRIES in have then 1 else 2)
                                    + (if (v + 1) / ENTRIES in have + {v / ENTRIES} then 1 else 2);
  }

  lemma {:induction false} OtherPte(mem: Mem, mem': Mem, d: nat, v: int, w: nat)
    requires SamePtes(mem, mem', d, v) && w != v && w < USERPAGES
    ensures Pte(mem', d, w) == Pte(mem, d, w)
  {
    hide Pte;
  }

  lemma {:induction false} ZeroPage(mem: Mem, d: nat, tabs: Tabs, pgs: Tabs, v: nat, top: nat)
    requires Space(mem, d, tabs, pgs) && v in pgs && v < USERPAGES && pgs[v] < |mem| && mem[pgs[v]] == ZeroData()
             && top == (v + 1) * PGSIZE
    ensures ZeroBetween(Image(mem, d, top), top - PGSIZE, top)
  {
    SpacePte(mem, d, tabs, pgs, v);
    forall a | top - PGSIZE <= a < top
      ensures VByte(mem, d, a) == 0
    {
      assert a / PGSIZE == v;
    }
  }

  // ---- pushing strings and pointer arrays ----

  predicate Aligned(a: int) {
    a % 4 == 0
  }

  lemma {:induction false} AlignedBelow(a: int, k: int)
    requires Aligned(a)
    ensures Aligned(a - 4 * k)
  {
    assert a - 4 * k == 4 * (a / 4 - k);
  }

  /** The state of the construction: everything below sp in the stack page is still zero. */
  ghost predicate Building(mem: Mem, d: nat, top: nat, sp: nat) {
    && top % PGSIZE == 0 && 2 * PGSIZE <= top <= USERPAGES * PGSIZE && top < W32
    && !UserOk(Pte(mem, d, top / PGSIZE - 2)) && UserOk(Pte(mem, d, top / PGSIZE - 1)) && KernelOnly(mem, d)
    && top - PGSIZE <= sp <= top && Aligned(sp)
    && ZeroBetween(Image(mem, d, top), top - PGSIZE, sp)
  }

  lemma {:induction false} BuildingAt(mem: Mem, d: nat, top: nat, sp: nat)
    requires Building(mem, d, top, sp)
    ensures 2 * PGSIZE <= top <= USERPAGES * PGSIZE && top - PGSIZE <= sp <= top && Aligned(sp) && KernelOnly(mem, d)
    ensures ZeroBetween(Image(mem, d, top), top - PGSIZE, sp) && |Image(mem, d, top)| == top
  {
    hide Pte, UserOk, ZeroBetween;
  }

  lemma {:induction false} StartBuilding(mem: Mem, d: nat, top: nat)
    requires StackReady(mem, d, top)
    ensures Building(mem, d, top, top)
  {
    hide Pte, UserOk, ZeroBetween, Image;
    assert top == 4 * (1024 * (top / PGSIZE));
  }

  /** An address of the guard page, if the range starts below the stack page. */
  lemma {:induction false} GuardAddress(top: nat, va: nat, n: nat) returns (a: nat)
    requires top % PGSIZE == 0 && 2 * PGSIZE <= top && n > 0 && top - 2 * PGSIZE < va + n
    ensures va < top - PGSIZE ==> va <= a < va + n && a / PGSIZE == top / PGSIZE - 2
  {
    a := if va >= top - 2 * PGSIZE then va else top - 2 * PGSIZE;
  }

  /** copyout to a range that reaches up to the guard page or above succeeds only inside the stack page. */
  lemma {:induction false} GuardStops(mem: Mem, d: nat, top: nat, va: nat, n: nat)
    requires top % PGSIZE == 0 && 2 * PGSIZE <= top && n > 0 && top - 2 * PGSIZE < va + n
    requires !UserOk(Pte(mem, d, top / PGSIZE - 2))
    requires UserRange(mem, d, va, n)
    ensures top - PGSIZE <= va
  {
    var a := GuardAddress(top, va, n);
    assert va <= a < va + n ==> UserOk(Pte(mem, d, a / PGSIZE));
  }

  /** A range inside the stack page is accessible. */
  lemma {:induction false} StackPageReached(mem: Mem, d: nat, top: nat, va: nat, n: nat)
    requires top % PGSIZE == 0 && PGSIZE <= top && UserOk(Pte(mem, d, top / PGSIZE - 1)) && top - PGSIZE <= va
             && va + n <= top
    ensures UserRange(mem, d, va, n)
  {
    hide Pte;
    forall a: nat | va <= a < va + n
      ensures UserOk(Pte(mem, d, a / PGSIZE))
    {
      assert a / PGSIZE == top / PGSIZE - 1;
    }
  }

  /** sp = (sp - n) & ~3. */
  function Down(sp: int, n: nat): int {
    (sp - n) / 4 * 4
  }

  /** The stack pointer after these strings. */
  function SpAfter(sp: int, strs: seq<seq<Byte>>): (r: int)
    ensures r <= sp
  {
    if strs == [] then sp else Down(SpAfter(sp, strs[..|strs| - 1]), |strs[|strs| - 1]| + 1)
  }

  lemma {:induction false} SpAfterNone(sp: int, strs: seq<seq<Byte>>)
    ensures SpAfter(sp, strs[..0]) == sp
  {
  }

  lemma {:induction false} SpAfterMore(sp: int, strs: seq<seq<Byte>>, n: nat)
    requires n < |strs|
    ensures SpAfter(sp, strs[..n + 1]) == Down(SpAfter(sp, strs[..n]), |strs[n]| + 1)
  {
    assert strs[..n + 1][..n] == strs[..n];
  }

  /** The pointer only goes down. */
  lemma {:induction false} SpAfterFalls(sp: int, strs: seq<seq<Byte>>, n: nat)
    requires n <= |strs|
    ensures SpAfter(sp, strs) <= SpAfter(sp, strs[..n])
    decreases |strs| - n
  {
    if n == |strs| {
      assert strs[..n] == strs;
    } else {
      SpAfterFalls(sp, strs, n + 1);
      SpAfterMore(sp, strs, n);
    }
  }

  /** Writing src at va, below sp but not entirely below the guard page. */
  lemma {:induction false} Pushed(mem: Mem, mem': Mem, d: nat, top: nat, sp: nat, va: nat, src: seq<Byte>)
    requires Building(mem, d, top, sp) && SamePtes(mem, mem', d, -1) && src != [] && Aligned(va)
    requires top - 2 * PGSIZE < va + |src| <= sp
    requires Image(mem', d, top) == Over(Image(mem, d, top), va, src)
    requires UserRange(mem', d, va, |src|)
    ensures Building(mem', d, top, va) && SameAbove(Image(mem, d, top), Image(mem', d, top), sp)
  {
    assert !UserOk(Pte(mem', d, top / PGSIZE - 2)) && UserOk(Pte(mem', d, top / PGSIZE - 1));
    GuardStops(mem', d, top, va, |src|);
  }

  /** One string of the two loops (exec.c:92-98, exec.c:132-138). A string longer than what is below sp
      wraps sp around to a kernel address. */
  method PushString(m: Machine, d: nat, top: nat, sp: nat, s: seq<Byte>, ghost tabs: Tabs, ghost pgs: Tabs)
    returns (r: Reach, p: U32)
    requires m.Valid() && Space(m.mem, d, tabs, pgs) && AllData(m.mem, pgs) && Building(m.mem, d, top, sp)
             && Whole(pgs, top)
    requires |s| < USERPAGES * PGSIZE
    modifies m`mem
    ensures m.Valid() && Space(m.mem, d, tabs, pgs) && AllData(m.mem, pgs)
    ensures r == Reached <==> top - PGSIZE <= Down(sp, |s| + 1)
    ensures r == Tableless ==> Down(sp, |s| + 1) < 0 && !KernelTables(m.mem, d)
    ensures r == Reached ==>
              && p == Down(sp, |s| + 1) && Building(m.mem, d, top, p) && p <= sp
              && HasString(Image(m.mem, d, top), p, s, p)
              && SameAbove(Image(old(m.mem), d, top), Image(m.mem, d, top), sp)
  {
    hide Space, SamePtes, Image, Over, AllData, Building, UserRange, TableRange, Pte, Pde, UserOk, Whole, KernelTables,
         HasString, SameAbove, Aligned;
    BuildingAt(m.mem, d, top, sp);
    DownWraps(sp, |s| + 1);
    p := Wrap32(sp - (|s| + 1)) / 4 * 4;
    ghost var before := m.mem;
    r := m.CopyOut(d, p, s + [0], tabs, pgs, top);
    StringPlace(before, m.mem, d, tabs, pgs, top, sp, p, |s| + 1, r);
    if r == Reached {
      Pushed(before, m.mem, d, top, sp, p, s + [0]);
      BuildingAt(m.mem, d, top, p);
      StringWritten(Image(before, d, top), p, s);
    }
  }

  lemma {:induction false} DownWraps(sp: nat, n: nat)
    requires sp <= USERPAGES * PGSIZE && 0 < n <= USERPAGES * PGSIZE
    ensures 0 <= Wrap32(sp - n) / 4 * 4 < W32 && Aligned(Wrap32(sp - n) / 4 * 4)
    ensures Wrap32(sp - n) / 4 * 4 == if n <= sp then Down(sp, n) else W32 + Down(sp, n)
    ensures n > sp ==> Wrap32(sp - n) / 4 * 4 >= USERPAGES * PGSIZE && Down(sp, n) < 0
    ensures n <= sp ==> Down(sp, n) + n <= sp
  {
    assert Wrap32(sp - n) == if n <= sp then sp - n else W32 + (sp - n);
    assert W32 == 4 * 0x4000_0000;
  }

  /** What became of the copyout. */
  lemma {:induction false} StringPlace(mem: Mem, mem': Mem, d: nat, tabs: Tabs, pgs: Tabs, top: nat, sp: nat, va: U32,
                                       n: nat, r: Reach)
    requires SamePtes(mem, mem', d, -1) && Building(mem, d, top, sp) && n > 0 && Whole(pgs, top)
    requires Space(mem', d, tabs, pgs) && AllData(mem', pgs)
    requires if n <= sp then va == Down(sp, n) else va >= USERPAGES * PGSIZE && Down(sp, n) < 0
    requires (r == Reached <==> UserRange(mem', d, va, n)) && (r == Tableless ==> !TableRange(mem', d, va, n))
    requires USERPAGES * PGSIZE <= va && r == Tableless ==> !Present(Pde(mem', d, va / PGSIZE))
    ensures r == Reached <==> top - PGSIZE <= Down(sp, n)
    ensures r == Tableless ==> Down(sp, n) < 0 && !KernelTables(mem', d)
  {
    if n <= sp {
      InStackPage(mem, mem', d, top, sp, va, n);
      WholeTables(mem', d, tabs, pgs, mem, top, sp, va, n);
      if r == Reached {
        OtherPte(mem, mem', d, -1, top / PGSIZE - 2);
        GuardStops(mem', d, top, va, n);
      }
    } else {
      KernelOnlyStays(mem, mem', d, -1);
      KernelRange(mem', d, va, n);
    }
  }

  lemma {:induction false} KernelRange(mem: Mem, d: nat, va: U32, n: nat)
    requires KernelOnly(mem, d) && USERPAGES * PGSIZE <= va && n > 0
    ensures !UserRange(mem, d, va, n)
    ensures KernelTables(mem, d) ==> Present(Pde(mem, d, va / PGSIZE))
  {
    var v := va / PGSIZE;
    assert USERPAGES <= v < PAGES && !UserOk(Pte(mem, d, v));
    assert va <= va < va + n && !UserOk(Pte(mem, d, va / PGSIZE));
  }

  /** copyout succeeds in the stack page. */
  lemma {:induction false} InStackPage(mem: Mem, mem': Mem, d: nat, top: nat, sp: nat, va: nat, n: nat)
    requires SamePtes(mem, mem', d, -1) && Building(mem, d, top, sp)
    ensures top - PGSIZE <= va && va + n <= top ==> UserRange(mem', d, va, n)
  {
    OtherPte(mem, mem', d, -1, top / PGSIZE - 1);
    if top - PGSIZE <= va && va + n <= top {
      StackPageReached(mem', d, top, va, n);
    }
  }

  lemma {:induction false} StringWritten(img: seq<Byte>, p: nat, s: seq<Byte>)
    requires p + |s| + 1 <= |img|
    ensures HasString(Over(img, p, s + [0]), p, s, p)
  {
  }

  /** The two loops over env and argv. The test for too many strings looks at the string count for argv;
      for env it looks at a counter left over from loading the program (exec.c:88), which does not
      move: the env loop has no limit of its own, and ustack has room for 64 strings. */
  method PushStrings(m: Machine, d: nat, top: nat, sp0: nat, strs: seq<seq<Byte>>, base: nat, stale: bool, left: int,
                     ustack0: seq<U32>, ghost tabs: Tabs, ghost pgs: Tabs)
    returns (r: Reach, sp: nat, ustack: seq<U32>, ghost ps: seq<nat>)
    requires m.Valid() && Space(m.mem, d, tabs, pgs) && AllData(m.mem, pgs) && Building(m.mem, d, top, sp0)
             && Whole(pgs, top)
    requires forall j :: 0 <= j < |strs| ==> |strs[j]| < USERPAGES * PGSIZE
    requires |ustack0| == USTACK && (if stale then base + |strs| < USTACK else base + MAXARG < USTACK)
    modifies m`mem
    ensures m.Valid() && Space(m.mem, d, tabs, pgs) && AllData(m.mem, pgs)
    ensures r == Reached <==>
              (if stale then strs == [] || left < MAXARG else |strs| <= MAXARG) && top - PGSIZE <= SpAfter(sp0, strs)
    ensures r == Tableless ==> SpAfter(sp0, strs) < 0 && !KernelTables(m.mem, d)
    ensures r == Reached ==>
              && sp == SpAfter(sp0, strs) && Building(m.mem, d, top, sp) && sp <= sp0
              && Strings(Image(m.mem, d, top), ps, strs, sp)
              && SameAbove(Image(old(m.mem), d, top), Image(m.mem, d, top), sp0)
              && |ustack| == USTACK && base + |strs| < USTACK && |ps| == |strs|
              && (forall j :: 0 <= j < base ==> ustack[j] == ustack0[j])
              && (forall j :: 0 <= j < |strs| ==> ustack[base + j] == ps[j])
  {
    hide Space, AllData, Image, HasString, SameAbove, Pte, UserOk, SpAfter, Down, ZeroBetween, Whole, KernelOnly,
         KernelTables, Aligned;
    sp, ustack, ps := sp0, ustack0, [];
    SpAfterNone(sp0, strs);
    SameSelf(Image(m.mem, d, top), sp0);
    var n := 0;
    while n < |strs|
      invariant 0 <= n <= |strs| && |ps| == n && |ustack| == USTACK && sp <= sp0
      invariant !stale ==> n <= MAXARG
      invariant stale && n > 0 ==> left < MAXARG
      invariant sp == SpAfter(sp0, strs[..n])
      invariant m.Valid() && Space(m.mem, d, tabs, pgs) && AllData(m.mem, pgs) && Building(m.mem, d, top, sp)
      invariant SameAbove(Image(old(m.mem), d, top), Image(m.mem, d, top), sp0)
      invariant Strings(Image(m.mem, d, top), ps, strs[..n], sp)
      invariant forall j :: 0 <= j < base ==> ustack[j] == ustack0[j]
      invariant forall j :: 0 <= j < n ==> ustack[base + j] == ps[j]
    {
      if (if stale then left else n) >= MAXARG {
        r := Refused;
        return;
      }
      ghost var img, low := Image(m.mem, d, top), sp;
      SpAfterMore(sp0, strs, n);
      SpAfterFalls(sp0, strs, n + 1);
      r, sp := PushString(m, d, top, sp, strs[n], tabs, pgs);
      if r != Reached {
        return;
      }
      SameTrans(Image(old(m.mem), d, top), img, Image(m.mem, d, top), sp0, low);
      StringsGrow(img, Image(m.mem, d, top), ps, strs, n, low, sp);
      ustack := ustack[base + n := sp];
      ps := ps + [sp];
      n := n + 1;
    }
    assert strs[..n] == strs;
    r := Reached;
  }

  lemma {:induction false} StringsMany(img: seq<Byte>, ps: seq<nat>, strs: seq<seq<Byte>>, lo: nat)
    requires Strings(img, ps, strs, lo)
    ensures |ps| == |strs| && forall j :: 0 <= j < |ps| ==> ps[j] < |img|
  {
    forall j | 0 <= j < |ps|
      ensures ps[j] < |img|
    {
      assert HasString(img, ps[j], strs[j], lo);
    }
  }

  lemma {:induction false} SameSelf(img: seq<Byte>, lo: nat)
    ensures SameAbove(img, img, lo)
  {
  }

  lemma {:induction false} SameTrans(a: seq<Byte>, b: seq<Byte>, c: seq<Byte>, hi: nat, lo: nat)
    requires SameAbove(a, b, hi) && SameAbove(b, c, lo) && lo <= hi
    ensures SameAbove(a, c, hi)
  {
  }

  lemma {:induction false} StringsGrow(img: seq<Byte>, img': seq<Byte>, ps: seq<nat>, strs: seq<seq<Byte>>, n: nat,
                                       low: nat, p: nat)
    requires n < |strs| && |ps| == n && Strings(img, ps, strs[..n], low) && SameAbove(img, img', low)
    requires p <= low && HasString(img', p, strs[n], p)
    ensures Strings(img', ps + [p], strs[..n + 1], p)
  {
    forall j | 0 <= j < n + 1
      ensures HasString(img', (ps + [p])[j], strs[..n + 1][j], p)
    {
      if j < n {
        assert HasString(img, ps[j], strs[..n][j], low);
        StringLower(img, img', ps[j], strs[j], low, p);
      }
    }
  }

  lemma {:induction false} StringLower(img: seq<Byte>, img': seq<Byte>, p: nat, s: seq<Byte>, lo: nat, at: nat)
    requires HasString(img, p, s, lo) && SameAbove(img, img', lo) && at <= lo
    ensures HasString(img', p, s, at)
  {
    assert img'[p..p + |s|] == img[p..p + |s|];
  }

  lemma {:induction false} ListLower(img: seq<Byte>, img': seq<Byte>, t: nat, strs: seq<seq<Byte>>, lo: nat, at: nat)
    requires ListAt(img, t, strs, lo) && SameAbove(img, img', lo) && at <= lo
    ensures ListAt(img', t, strs, at)
  {
    forall j | 0 <= j < |strs|
      ensures HasString(img', WordAt(img', t + 4 * j), strs[j], at)
    {
      assert WordAt(img', t + 4 * j) == WordAt(img, t + 4 * j);
      StringLower(img, img', WordAt(img, t + 4 * j), strs[j], lo, at);
    }
  }

  /** The array copied out at sp: words ws, of which those from index first on, and the word behind
      them, are the pointer array. */
  lemma {:induction false} ListWritten(img: seq<Byte>, img': seq<Byte>, sp: nat, ws: seq<U32>, first: nat, ps: seq<nat>,
                                       strs: seq<seq<Byte>>, lo: nat)
    requires |ps| == |strs| && Strings(img, ps, strs, lo) && sp + 4 * |ws| <= |img|
             && img' == Over(img, sp, WordBytes(ws))
    requires first + |strs| <= |ws| && sp + 4 * (first + |strs|) + 4 <= |img| && sp + 4 * |ws| <= lo
    requires forall j :: 0 <= j < |strs| ==> ws[first + j] == ps[j]
    requires WordAt(img', sp + 4 * (first + |strs|)) == 0
    ensures ListAt(img', sp + 4 * first, strs, sp)
  {
    hide Over, WordAt, HasString, WordBytes, SameAbove;
    OverAbove(img, sp, WordBytes(ws), lo);
    var t := sp + 4 * first;
    assert sp + 4 * (first + |strs|) == t + 4 * |strs|;
    forall j | 0 <= j < |strs|
      ensures HasString(img', WordAt(img', t + 4 * j), strs[j], sp)
    {
      WordsRead(img, sp, ws, first + j);
      assert sp + 4 * (first + j) == t + 4 * j;
      StringLower(img, img', ps[j], strs[j], lo, sp);
    }
  }

  lemma {:induction false} OverAbove(img: seq<Byte>, va: nat, src: seq<Byte>, lo: nat)
    requires va + |src| <= |img| && va + |src| <= lo
    ensures SameAbove(img, Over(img, va, src), lo) && |Over(img, va, src)| == |img|
  {
  }

  /** The word behind what was copied out is what the page held before, whatever ustack says. */
  lemma {:induction false} NotCopied(img: seq<Byte>, va: nat, src: seq<Byte>)
    requires va + |src| + 4 <= |img|
    ensures WordAt(Over(img, va, src), va + |src|) == WordAt(img, va + |src|)
  {
    hide Join;
  }

  /** So env's NULL is there because the page started out zero. */
  lemma {:induction false} ZeroWord(img: seq<Byte>, va: nat, src: seq<Byte>, lo: nat, hi: nat)
    requires ZeroBetween(img, lo, hi) && va + |src| <= |img| && lo <= va + |src| && va + |src| + 4 <= hi
    ensures WordAt(Over(img, va, src), va + |src|) == 0
  {
    NotCopied(img, va, src);
    hide Over;
  }

  /** The stack pointer after env: its strings, and room for its words. */
  function EnvSp(top: int, env: seq<seq<Byte>>): int {
    SpAfter(top, env) - 4 * (6 + |env|)
  }

  /** The final stack pointer. */
  function FinalSp(top: int, argv: seq<seq<Byte>>, env: seq<seq<Byte>>): int {
    SpAfter(EnvSp(top, env), argv) - 4 * (5 + |argv|)
  }

  lemma {:induction false} FinalSpFalls(top: int, argv: seq<seq<Byte>>, env: seq<seq<Byte>>)
    ensures FinalSp(top, argv, env) <= EnvSp(top, env) && FinalSp(top, argv, env) <= SpAfter(EnvSp(top, env), argv)
  {
  }

  /** env (exec.c:83-109): the strings, then the words with the env pointers. The NULL behind them is
      not copied out. */
  method PushEnv(m: Machine, d: nat, top: nat, env: seq<seq<Byte>>, left: int, junk: seq<U32>, ghost tabs: Tabs,
                 ghost pgs: Tabs)
    returns (r: Reach, sp: nat, ustack: seq<U32>)
    requires m.Valid() && Space(m.mem, d, tabs, pgs) && AllData(m.mem, pgs) && StackReady(m.mem, d, top)
             && Whole(pgs, top)
    requires (forall j :: 0 <= j < |env| ==> |env[j]| < USERPAGES * PGSIZE) && |env| <= 64 && |junk| == USTACK
    modifies m`mem
    ensures m.Valid() && Space(m.mem, d, tabs, pgs) && AllData(m.mem, pgs)
    ensures r == Reached <==> (env == [] || left < MAXARG) && top - PGSIZE <= EnvSp(top, env)
    ensures r == Tableless ==> EnvSp(top, env) < 0 && !KernelTables(m.mem, d)
    ensures r == Reached ==>
              && sp == EnvSp(top, env) && Building(m.mem, d, top, sp) && |ustack| == USTACK && ustack[0] == 0xffff_ffff
              && ListAt(Image(m.mem, d, top), ustack[3], env, sp)
  {
    hide Space, AllData, Image, Strings, ListAt, SameAbove, WordAt, WordBytes, SpAfter, Down, Pte, UserOk, ZeroBetween,
         StackReady, Building, UserRange, TableRange, Whole, KernelOnly, KernelTables, Aligned;
    StartBuilding(m.mem, d, top);
    ustack := junk[0 := 0xffff_ffff];
    ghost var ps;
    r, sp, ustack, ps := PushStrings(m, d, top, top, env, 5, true, left, ustack, tabs, pgs);
    if r != Reached {
      return;
    }
    var envc := |env|;
    var spE := sp;
    BuildingAt(m.mem, d, top, sp);
    StringsMany(Image(m.mem, d, top), ps, env, sp);
    ustack := ustack[3 := spE - (envc + 1) * 4];
    ustack := ustack[5 + envc := 0];
    sp := spE - (5 + envc + 1) * 4;
    AlignedBelow(spE, 6 + envc);
    ghost var before := m.mem;
    r := m.CopyOut(d, sp, WordBytes(ustack[..4 + envc + 1]), tabs, pgs, top);
    InStackPage(before, m.mem, d, top, spE, sp, 4 * (5 + envc));
    WholeTables(m.mem, d, tabs, pgs, before, top, spE, sp, 4 * (5 + envc));
    if r == Reached {
      ghost var ws := ustack[..5 + envc];
      Pushed(before, m.mem, d, top, spE, sp, WordBytes(ws));
      ZeroWord(Image(before, d, top), sp, WordBytes(ws), top - PGSIZE, spE);
      ListWritten(Image(before, d, top), Image(m.mem, d, top), sp, ws, 5, ps, env, spE);
    }
  }

  /** What a program finds from its initial stack pointer: a return address, argc, argv and env. */
  ghost predicate Decodes(img: seq<Byte>, sp: nat, argv: seq<seq<Byte>>, env: seq<seq<Byte>>) {
    && WordAt(img, sp) == 0xffff_ffff && WordAt(img, sp + 4) == |argv|
    && ListAt(img, WordAt(img, sp + 8), argv, sp) && ListAt(img, WordAt(img, sp + 12), env, sp)
  }

  lemma {:induction false} FourWords(img: seq<Byte>, sp: nat, ws: seq<U32>)
    requires sp + 4 * |ws| <= |img| && |ws| >= 4
    ensures var r := Over(img, sp, WordBytes(ws));
            WordAt(r, sp) == ws[0] && WordAt(r, sp + 4) == ws[1] && WordAt(r, sp + 8) == ws[2]
            && WordAt(r, sp + 12) == ws[3]
  {
    hide Over, WordAt, WordBytes;
    WordsRead(img, sp, ws, 0);
    WordsRead(img, sp, ws, 1);
    WordsRead(img, sp, ws, 2);
    WordsRead(img, sp, ws, 3);
  }

  /** The whole stack (exec.c:83-149): execve gets through exactly if the lists are short enough and
      everything fits into the stack page, and then decoding from the final stack pointer gives back
      argc, every argv string and its NULL, and every env string and its NULL. A string too long for the
      image is refused too, except where the wrapped stack pointer meets a kernel page without a table. */
  method BuildStack(m: Machine, d: nat, top: nat, argv: seq<seq<Byte>>, env: seq<seq<Byte>>, left: int, junk: seq<U32>,
                    ghost tabs: Tabs, ghost pgs: Tabs) returns (r: Reach, sp: nat)
    requires m.Valid() && Space(m.mem, d, tabs, pgs) && AllData(m.mem, pgs) && StackReady(m.mem, d, top)
             && Whole(pgs, top)
    requires forall j :: 0 <= j < |env| ==> |env[j]| < USERPAGES * PGSIZE
    requires forall j :: 0 <= j < |argv| ==> |argv[j]| < USERPAGES * PGSIZE
    requires |env| <= 64 && |junk| == USTACK
    modifies m`mem
    ensures r == Reached <==>
              |argv| <= MAXARG && (env == [] || left < MAXARG) && top - PGSIZE <= FinalSp(top, argv, env)
    ensures r == Tableless ==> FinalSp(top, argv, env) < 0 && !KernelTables(m.mem, d)
    ensures r == Reached ==> sp == FinalSp(top, argv, env) && Aligned(sp)
    ensures r == Reached ==> Decodes(Image(m.mem, d, top), sp, argv, env)
  {
    hide Space, AllData, Image, ListAt, WordAt, SpAfter, Pte, UserOk, StackReady, Building, Whole, KernelOnly,
         KernelTables, EnvSp, Decodes, Aligned;
    FinalSpFalls(top, argv, env);
    var ustack;
    r, sp, ustack := PushEnv(m, d, top, env, left, junk, tabs, pgs);
    if r != Reached {
      return;
    }
    r, sp := PushArgv(m, d, top, sp, argv, env, left, ustack, tabs, pgs);
  }

  /** argv (exec.c:125-149): the strings, then the words. */
  method PushArgv(m: Machine, d: nat, top: nat, sp0: nat, argv: seq<seq<Byte>>, ghost env: seq<seq<Byte>>, left: int,
                  ustack0: seq<U32>, ghost tabs: Tabs, ghost pgs: Tabs)
    returns (r: Reach, sp: nat)
    requires m.Valid() && Space(m.mem, d, tabs, pgs) && AllData(m.mem, pgs) && Building(m.mem, d, top, sp0)
             && Whole(pgs, top)
    requires forall j :: 0 <= j < |argv| ==> |argv[j]| < USERPAGES * PGSIZE
    requires |ustack0| == USTACK && ustack0[0] == 0xffff_ffff && ListAt(Image(m.mem, d, top), ustack0[3], env, sp0)
    modifies m`mem
    ensures r == Reached <==> |argv| <= MAXARG && top - PGSIZE <= SpAfter(sp0, argv) - 4 * (5 + |argv|)
    ensures r == Tableless ==> SpAfter(sp0, argv) < 0 && !KernelTables(m.mem, d)
    ensures r == Reached ==> sp == SpAfter(sp0, argv) - 4 * (5 + |argv|) && Aligned(sp)
    ensures r == Reached ==> Decodes(Image(m.mem, d, top), sp, argv, env)
  {
    hide Space, AllData, Image, Strings, ListAt, SameAbove, WordAt, WordBytes, SpAfter, Down, Pte, UserOk, ZeroBetween,
         Building, UserRange, TableRange, Whole, KernelOnly, KernelTables, Decodes, Aligned;
    ghost var img0, ps := Image(m.mem, d, top), [];
    var ustack;
    r, sp, ustack, ps := PushStrings(m, d, top, sp0, argv, 4, false, left, ustack0, tabs, pgs);
    if r != Reached {
      return;
    }
    var argc := |argv|;
    var spA := sp;
    BuildingAt(m.mem, d, top, sp);
    StringsMany(Image(m.mem, d, top), ps, argv, sp);
    ListLower(img0, Image(m.mem, d, top), ustack0[3], env, sp0, spA);
    ustack := ustack[1 := argc];
    ustack := ustack[2 := spA - (argc + 1) * 4];
    ustack := ustack[4 + argc := 0];
    sp := spA - (4 + argc + 1) * 4;
    AlignedBelow(spA, 5 + argc);
    ghost var before := m.mem;
    r := m.CopyOut(d, sp, WordBytes(ustack[..4 + argc + 1]), tabs, pgs, top);
    InStackPage(before, m.mem, d, top, spA, sp, 4 * (5 + argc));
    WholeTables(m.mem, d, tabs, pgs, before, top, spA, sp, 4 * (5 + argc));
    if r == Reached {
      ghost var ws := ustack[..5 + argc];
      Pushed(before, m.mem, d, top, spA, sp, WordBytes(ws));
      BuildingAt(m.mem, d, top, sp);
      ArgvDone(Image(before, d, top), Image(m.mem, d, top), sp, spA, ws, ps, argv, env, ustack0[3]);
    }
  }

  lemma {:induction false} ArgvDone(img: seq<Byte>, img': seq<Byte>, sp: nat, spA: nat, ws: seq<U32>, ps: seq<nat>,
                                    argv: seq<seq<Byte>>, env: seq<seq<Byte>>, ev: nat)
    requires Strings(img, ps, argv, spA) && ListAt(img, ev, env, spA) && |ps| == |argv|
    requires |ws| == 5 + |argv| && sp + 4 * |ws| == spA <= |img| && img' == Over(img, sp, WordBytes(ws))
    requires ws[0] == 0xffff_ffff && ws[1] == |argv| && ws[2] == sp + 16 && ws[3] == ev && ws[4 + |argv|] == 0
    requires forall j :: 0 <= j < |argv| ==> ws[4 + j] == ps[j]
    ensures Decodes(img', sp, argv, env)
  {
    hide Over, WordAt, WordBytes, Strings, ListAt, SameAbove;
    OverAbove(img, sp, WordBytes(ws), spA);
    FourWords(img, sp, ws);
    WordsRead(img, sp, ws, 4 + |argv|);
    ListWritten(img, img', sp, ws, 4, ps, argv, spA);
    ListLower(img, img', ev, env, spA, sp);
  }
}
