/** The two-level page tables of kernel/vm.c over physical page frames. Addresses are handled by page
    number: virtual page v has directory entry v / 1024 and table entry v % 1024. */
module Vm {
  import opened Words

  const PGSIZE := 4096
  const ENTRIES := 1024
  const USERPAGES := 0x8_0000 // KERNBASE / PGSIZE
  const PAGES := 0x10_0000
  const PTE_W := 2
  const PTE_U := 4

  /** What a frame holds: page table entries, bytes, or what a free page is left with. */
  datatype Page = Table(ptes: seq<U32>) | Data(bytes: seq<Byte>) | Junk

  ghost predicate PageOk(p: Page) {
    match p
    case Table(ptes) => |ptes| == ENTRIES
    case Data(bytes) => |bytes| == PGSIZE
    case Junk => true
  }

  type Mem = seq<Page>

  ghost predicate MemOk(mem: Mem) {
    |mem| <= 0x10_0000 && forall f :: 0 <= f < |mem| ==> PageOk(mem[f])
  }

  function ZeroTable(): (p: Page)
    ensures PageOk(p) && p.Table? && forall k :: 0 <= k < ENTRIES ==> p.ptes[k] == 0
  {
    Table(seq<U32>(ENTRIES, (k: nat) => 0))
  }

  function ZeroData(): (p: Page)
    ensures PageOk(p) && p.Data? && forall k :: 0 <= k < PGSIZE ==> p.bytes[k] == 0
  {
    Data(seq<Byte>(PGSIZE, (k: nat) => 0))
  }

  // ---- entries ----

  predicate Present(pte: U32) {
    pte % 2 == 1
  }

  function FrameOf(pte: U32): nat {
    pte / PGSIZE
  }

  function FlagsOf(pte: U32): nat {
    pte % PGSIZE
  }

  /** pa | perm | PTE_P, for the frame's address pa. */
  function MakePte(f: nat, perm: nat): (pte: U32)
    requires f < 0x10_0000 && perm < PGSIZE
    ensures Present(pte) && FrameOf(pte) == f && FlagsOf(pte) == perm + (1 - perm % 2)
  {
    var low := perm + (1 - perm % 2);
    DivModUnique(f * PGSIZE + low, PGSIZE, f, low);
    DivModUnique(f * PGSIZE + low, 2, f * 2048 + low / 2, 1);
    f * PGSIZE + low
  }

  predicate IsTable(mem: Mem, t: nat) {
    t < |mem| && mem[t].Table? && |mem[t].ptes| == ENTRIES
  }

  /** The directory entry and the table entry for virtual page v (0: none). */
  function Pde(mem: Mem, d: nat, v: nat): U32 {
    if IsTable(mem, d) && v / ENTRIES < ENTRIES then mem[d].ptes[v / ENTRIES] else 0
  }

  function Pte(mem: Mem, d: nat, v: nat): U32 {
    if Present(Pde(mem, d, v)) && IsTable(mem, FrameOf(Pde(mem, d, v)))
    then mem[FrameOf(Pde(mem, d, v))].ptes[v % ENTRIES] else 0
  }

  // ---- a directory with its tables and user pages ----

  /** tabs[i] is the frame of table i; pgs[v] that of user page v. */
  type Tabs = map<nat, nat>

  ghost predicate TabOk(mem: Mem, d: nat, tabs: Tabs, i: nat)
    requires IsTable(mem, d)
  {
    i < ENTRIES ==>
      && (i in tabs <==> Present(mem[d].ptes[i]))
      && (i in tabs ==> FrameOf(mem[d].ptes[i]) == tabs[i] && IsTable(mem, tabs[i]) && tabs[i] != d)
  }

  ghost predicate PageAt(mem: Mem, d: nat, tabs: Tabs, pgs: Tabs, v: nat)
    requires IsTable(mem, d)
  {
    && (v in pgs <==>
          v / ENTRIES in tabs && IsTable(mem, tabs[v / ENTRIES]) && Present(mem[tabs[v / ENTRIES]].ptes[v % ENTRIES]))
    && (v in pgs ==> FrameOf(mem[tabs[v / ENTRIES]].ptes[v % ENTRIES]) == pgs[v] && pgs[v] < |mem|)
  }

  ghost predicate Fresh(d: nat, tabs: Tabs, pgs: Tabs, f: nat) {
    f != d && f !in tabs.Values && f !in pgs.Values
  }

  ghost predicate Distinct(d: nat, tabs: Tabs, pgs: Tabs) {
    && (forall i, j :: i in tabs && j in tabs && i != j ==> tabs[i] != tabs[j])
    && (forall v, w :: v in pgs && w in pgs && v != w ==> pgs[v] != pgs[w])
    && (forall i, v :: i in tabs && v in pgs ==> tabs[i] != pgs[v])
    && (forall v :: v in pgs ==> pgs[v] != d)
    && (forall i :: i in tabs ==> tabs[i] != d)
  }

  ghost predicate Space(mem: Mem, d: nat, tabs: Tabs, pgs: Tabs) {
    && MemOk(mem) && IsTable(mem, d) && Distinct(d, tabs, pgs)
    && (forall i :: i in tabs ==> i < ENTRIES) && (forall v :: v in pgs ==> v < USERPAGES)
    && (forall i: nat :: TabOk(mem, d, tabs, i))
    && (forall v: nat :: v < USERPAGES ==> PageAt(mem, d, tabs, pgs, v))
  }

  /** The invariant says what the hardware walk finds. */
  lemma {:induction false} SpacePte(mem: Mem, d: nat, tabs: Tabs, pgs: Tabs, v: nat)
    requires Space(mem, d, tabs, pgs) && v < USERPAGES
    ensures v in pgs <==> Present(Pte(mem, d, v))
    ensures v in pgs ==> FrameOf(Pte(mem, d, v)) == pgs[v]
    ensures v / ENTRIES in tabs ==>
              IsTable(mem, tabs[v / ENTRIES]) && Pte(mem, d, v) == mem[tabs[v / ENTRIES]].ptes[v % ENTRIES]
  {
    assert TabOk(mem, d, tabs, v / ENTRIES) && PageAt(mem, d, tabs, pgs, v);
  }

  function WithPte(mem: Mem, t: nat, k: nat, pte: U32): Mem
    requires IsTable(mem, t) && k < ENTRIES
  {
    mem[t := Table(mem[t].ptes[k := pte])]
  }

  /** walkpgdir's new table (vm.c:58-63). */
  lemma {:induction false} SpaceAddTable(mem: Mem, d: nat, tabs: Tabs, pgs: Tabs, i: nat, t: nat)
    requires Space(mem, d, tabs, pgs) && i < ENTRIES && i !in tabs && t < |mem| && Fresh(d, tabs, pgs, t)
    ensures Space(WithPte(mem[t := ZeroTable()], d, i, MakePte(t, PTE_W + PTE_U)), d, tabs[i := t], pgs)
  {
    var mem1 := mem[t := ZeroTable()];
    var mem' := WithPte(mem1, d, i, MakePte(t, PTE_W + PTE_U));
    var tabs' := tabs[i := t];
    forall j: nat
      ensures TabOk(mem', d, tabs', j)
    {
      assert TabOk(mem, d, tabs, j);
    }
    forall v: nat | v < USERPAGES
      ensures PageAt(mem', d, tabs', pgs, v)
    {
      assert PageAt(mem, d, tabs, pgs, v) && TabOk(mem, d, tabs, v / ENTRIES);
    }
  }

  /** mappages on one user page (vm.c:85-89). */
  lemma {:induction false} SpaceMap(mem: Mem, d: nat, tabs: Tabs, pgs: Tabs, v: nat, f: nat, perm: nat)
    requires Space(mem, d, tabs, pgs) && v < USERPAGES && v !in pgs && v / ENTRIES in tabs
    requires f < |mem| && perm < PGSIZE && Fresh(d, tabs, pgs, f)
    ensures IsTable(mem, tabs[v / ENTRIES])
    ensures Space(WithPte(mem, tabs[v / ENTRIES], v % ENTRIES, MakePte(f, perm)), d, tabs, pgs[v := f])
  {
    var t := tabs[v / ENTRIES];
    assert TabOk(mem, d, tabs, v / ENTRIES);
    var mem', pgs' := WithPte(mem, t, v % ENTRIES, MakePte(f, perm)), pgs[v := f];
    forall j: nat
      ensures TabOk(mem', d, tabs, j)
    {
      assert TabOk(mem, d, tabs, j);
    }
    forall w: nat | w < USERPAGES
      ensures PageAt(mem', d, tabs, pgs', w)
    {
      assert PageAt(mem, d, tabs, pgs, w) && TabOk(mem, d, tabs, w / ENTRIES);
      SameEntry(v, w);
    }
  }

  lemma {:induction false} SameEntry(v: nat, w: nat)
    ensures v / ENTRIES == w / ENTRIES && v % ENTRIES == w % ENTRIES ==> v == w
  {
  }

  /** mappages on one kernel page: the user half does not change. */
  lemma {:induction false} SpaceMapKernel(mem: Mem, d: nat, tabs: Tabs, pgs: Tabs, v: nat, pte: U32)
    requires Space(mem, d, tabs, pgs) && USERPAGES <= v && v / ENTRIES in tabs
    ensures IsTable(mem, tabs[v / ENTRIES]) && Space(WithPte(mem, tabs[v / ENTRIES], v % ENTRIES, pte), d, tabs, pgs)
  {
    var t := tabs[v / ENTRIES];
    assert TabOk(mem, d, tabs, v / ENTRIES);
    var mem' := WithPte(mem, t, v % ENTRIES, pte);
    forall j: nat
      ensures TabOk(mem', d, tabs, j)
    {
      assert TabOk(mem, d, tabs, j);
    }
    forall w: nat | w < USERPAGES
      ensures PageAt(mem', d, tabs, pgs, w)
    {
      assert PageAt(mem, d, tabs, pgs, w) && TabOk(mem, d, tabs, w / ENTRIES);
      assert w / ENTRIES < 512 <= v / ENTRIES;
    }
  }

  /** Filling a page that is neither directory nor table. */
  lemma {:induction false} SpaceData(mem: Mem, d: nat, tabs: Tabs, pgs: Tabs, f: nat, p: Page)
    requires Space(mem, d, tabs, pgs) && f < |mem| && f != d && f !in tabs.Values && PageOk(p)
    ensures Space(mem[f := p], d, tabs, pgs)
  {
    var mem' := mem[f := p];
    forall j: nat
      ensures TabOk(mem', d, tabs, j)
    {
      assert TabOk(mem, d, tabs, j);
    }
    forall w: nat | w < USERPAGES
      ensures PageAt(mem', d, tabs, pgs, w)
    {
      assert PageAt(mem, d, tabs, pgs, w);
    }
  }

  /** Every page but one is mapped as before. */
  ghost predicate SamePtes(mem: Mem, mem': Mem, d: nat, but: int) {
    forall v: nat :: v < PAGES && v != but ==> Pte(mem', d, v) == Pte(mem, d, v)
  }

  lemma {:induction false} AddTablePtes(mem: Mem, d: nat, tabs: Tabs, pgs: Tabs, i: nat, t: nat)
    requires Space(mem, d, tabs, pgs) && i < ENTRIES && i !in tabs && t < |mem| && Fresh(d, tabs, pgs, t)
    ensures SamePtes(mem, WithPte(mem[t := ZeroTable()], d, i, MakePte(t, PTE_W + PTE_U)), d, -1)
  {
    var mem' := WithPte(mem[t := ZeroTable()], d, i, MakePte(t, PTE_W + PTE_U));
    forall v: nat | v < PAGES
      ensures Pte(mem', d, v) == Pte(mem, d, v)
    {
      assert TabOk(mem, d, tabs, v / ENTRIES) && TabOk(mem, d, tabs, i);
    }
  }

  lemma {:induction false} MapPtes(mem: Mem, d: nat, tabs: Tabs, pgs: Tabs, v: nat, pte: U32)
    requires Space(mem, d, tabs, pgs) && v / ENTRIES in tabs
    ensures IsTable(mem, tabs[v / ENTRIES])
    ensures var mem' := WithPte(mem, tabs[v / ENTRIES], v % ENTRIES, pte);
            SamePtes(mem, mem', d, v) && Pte(mem', d, v) == pte
  {
    assert TabOk(mem, d, tabs, v / ENTRIES);
    var mem' := WithPte(mem, tabs[v / ENTRIES], v % ENTRIES, pte);
    forall w: nat | w < PAGES && w != v
      ensures Pte(mem', d, w) == Pte(mem, d, w)
    {
      assert TabOk(mem, d, tabs, w / ENTRIES);
      SameEntry(v, w);
    }
  }

  lemma {:induction false} DataPtes(mem: Mem, d: nat, tabs: Tabs, pgs: Tabs, f: nat, p: Page)
    requires Space(mem, d, tabs, pgs) && f < |mem| && f != d && f !in tabs.Values
    ensures SamePtes(mem, mem[f := p], d, -1)
  {
    var mem' := mem[f := p];
    forall v: nat | v < PAGES
      ensures Pte(mem', d, v) == Pte(mem, d, v)
    {
      assert TabOk(mem, d, tabs, v / ENTRIES);
    }
  }

  // ---- allocation and mapping ----

  /** All frames outside home keep their contents. */
  ghost predicate FramesKept(mem: Mem, mem': Mem, home: set<nat>) {
    |mem'| == |mem| && forall f :: 0 <= f < |mem| && f !in home ==> mem'[f] == mem[f]
  }

  /** Frames that are neither free nor in use stay so, and keep their contents. */
  ghost predicate FreshKept(mem: Mem, mem': Mem, free: seq<nat>, d: nat, tabs: Tabs, tabs': Tabs, pgs: Tabs) {
    |mem'| == |mem| && forall f: nat :: Fresh(d, tabs, pgs, f) && f !in free ==>
      Fresh(d, tabs', pgs, f) && (f < |mem| ==> mem'[f] == mem[f])
  }

  /** The user pages keep their contents. */
  ghost predicate PagesKept(mem: Mem, mem': Mem, pgs: Tabs) {
    |mem'| == |mem| && forall w :: w in pgs && pgs[w] < |mem| ==> mem'[pgs[w]] == mem[pgs[w]]
  }

  /** A table for page v was found, made from one free frame, or (not ok) could not be made. */
  ghost predicate Took(free: seq<nat>, free': seq<nat>, tabs: Tabs, tabs': Tabs, v: nat, ok: bool) {
    && (ok <==> v / ENTRIES in tabs || free != [])
    && tabs'.Keys == (if ok then tabs.Keys + {v / ENTRIES} else tabs.Keys)
    && |free'| == |free| - (if ok && v / ENTRIES !in tabs then 1 else 0)
  }

  datatype Outcome = Done | NoMemory | Panicked

  /** A range of the kernel's own mappings, in pages. */
  datatype Kmap = Kmap(v: nat, n: nat, f: nat, perm: nat)

  ghost predicate KmapOk(k: Kmap) {
    USERPAGES <= k.v && 0 < k.n && k.v + k.n <= 0x10_0000 && k.f + k.n <= 0x10_0000 && k.perm < PGSIZE
  }

  predicate InRange(k: Kmap, v: nat) {
    k.v <= v < k.v + k.n
  }

  /** The first n pages of the range are mapped as they should be. */
  ghost predicate Maps(mem: Mem, d: nat, k: Kmap, n: nat)
    requires KmapOk(k) && n <= k.n
  {
    forall v: nat :: k.v <= v < k.v + n ==> Pte(mem, d, v) == MakePte(k.f + (v - k.v), k.perm)
  }

  /** All pages but the first n of the range are mapped as before. */
  ghost predicate SameFrom(mem: Mem, mem': Mem, d: nat, k: Kmap, n: nat) {
    forall v: nat :: v < PAGES && !(k.v <= v < k.v + n) ==> Pte(mem', d, v) == Pte(mem, d, v)
  }

  ghost predicate SameOutside(mem: Mem, mem': Mem, d: nat, k: Kmap) {
    forall v: nat :: v < PAGES && !InRange(k, v) ==> Pte(mem', d, v) == Pte(mem, d, v)
  }

  lemma {:induction false} OneMore(mem0: Mem, mem1: Mem, mem: Mem, d: nat, k: Kmap, i: nat)
    requires KmapOk(k) && i < k.n && Maps(mem1, d, k, i) && SameFrom(mem0, mem1, d, k, i)
    requires SamePtes(mem1, mem, d, k.v + i) && Pte(mem, d, k.v + i) == MakePte(k.f + i, k.perm)
    ensures Maps(mem, d, k, i + 1) && SameFrom(mem0, mem, d, k, i + 1)
    ensures i + 1 == k.n ==> SameOutside(mem0, mem, d, k)
  {
    hide Pte, MakePte;
    forall v: nat | k.v <= v < k.v + i + 1
      ensures Pte(mem, d, v) == MakePte(k.f + (v - k.v), k.perm)
    {
      assert v < k.v + i ==> Pte(mem1, d, v) == MakePte(k.f + (v - k.v), k.perm);
    }
    forall v: nat | v < PAGES && !(k.v <= v < k.v + i + 1)
      ensures Pte(mem, d, v) == Pte(mem0, d, v)
    {
      assert Pte(mem1, d, v) == Pte(mem0, d, v);
    }
  }

  lemma {:induction false} FramesTrans(a: Mem, b: Mem, c: Mem, home: set<nat>)
    requires FramesKept(a, b, home) && FramesKept(b, c, home)
    ensures FramesKept(a, c, home)
  {
  }

  lemma {:induction false} FramesSelf(a: Mem, home: set<nat>)
    ensures FramesKept(a, a, home)
  {
  }

  /** The table entry of page v, where its table is. */
  lemma {:induction false} EntryOf(mem: Mem, d: nat, tabs: Tabs, pgs: Tabs, v: nat)
    requires Space(mem, d, tabs, pgs) && v / ENTRIES in tabs
    ensures IsTable(mem, tabs[v / ENTRIES]) && Pte(mem, d, v) == mem[tabs[v / ENTRIES]].ptes[v % ENTRIES]
  {
    assert TabOk(mem, d, tabs, v / ENTRIES);
  }

  /** No page of the kernel's half is for users. */
  ghost predicate KernelOnly(mem: Mem, d: nat) {
    forall v: nat :: USERPAGES <= v < PAGES ==> !UserOk(Pte(mem, d, v))
  }

  lemma {:induction false} KernelOnlyStays(mem: Mem, mem': Mem, d: nat, but: int)
    requires KernelOnly(mem, d) && SamePtes(mem, mem', d, but) && but < USERPAGES
    ensures KernelOnly(mem', d)
  {
    hide Pte, UserOk;
  }

  /** What a walk through the directory finds. */
  lemma {:induction false} WalkFacts(mem: Mem, d: nat, tabs: Tabs, pgs: Tabs, v: nat)
    requires Space(mem, d, tabs, pgs) && AllData(mem, pgs) && v < PAGES && (v < USERPAGES || KernelOnly(mem, d))
    ensures IsTable(mem, d) && (Present(Pde(mem, d, v)) ==> IsTable(mem, FrameOf(Pde(mem, d, v))))
    ensures UserOk(Pte(mem, d, v)) ==>
              v < USERPAGES && Present(Pde(mem, d, v)) && v in pgs && FrameOf(Pte(mem, d, v)) == pgs[v]
    ensures v in pgs ==> pgs[v] < |mem| && mem[pgs[v]].Data? && |mem[pgs[v]].bytes| == PGSIZE
    ensures v in pgs ==> Present(Pde(mem, d, v))
  {
    assert TabOk(mem, d, tabs, v / ENTRIES);
    if v < USERPAGES {
      SpacePte(mem, d, tabs, pgs, v);
    }
  }

  lemma {:induction false} HasTable(mem: Mem, d: nat, v: nat)
    requires UserOk(Pte(mem, d, v))
    ensures Present(Pde(mem, d, v))
  {
  }

  lemma {:induction false} NoTable(mem: Mem, d: nat, v: nat)
    requires !Present(Pde(mem, d, v))
    ensures !Present(Pte(mem, d, v))
  {
  }

  lemma {:induction false} SamePte(mem: Mem, d: nat, v: int)
    ensures SamePtes(mem, mem, d, v)
  {
  }

  lemma {:induction false} WeakSame(mem: Mem, mem': Mem, d: nat, v: nat)
    requires SamePtes(mem, mem', d, -1)
    ensures SamePtes(mem, mem', d, v) && (v < PAGES ==> Pte(mem', d, v) == Pte(mem, d, v))
  {
  }

  lemma {:induction false} PagesTrans(a: Mem, b: Mem, c: Mem, pgs: Tabs)
    requires PagesKept(a, b, pgs) && PagesKept(b, c, pgs)
    ensures PagesKept(a, c, pgs)
  {
  }

  /** Writing the entry of page v: what becomes of the address space under construction. */
  lemma {:induction false} MapStep(mem: Mem, free: seq<nat>, d: nat, tabs: Tabs, pgs: Tabs, v: nat, f: nat, perm: nat,
                                   home: set<nat>)
    requires Space(mem, d, tabs, pgs) && v / ENTRIES in tabs && tabs.Values <= home && !Present(Pte(mem, d, v))
    requires f < 0x10_0000 && perm < PGSIZE && (v < USERPAGES ==> f < |mem| && Fresh(d, tabs, pgs, f) && f !in free)
    requires forall i :: 0 <= i < |free| ==> Fresh(d, tabs, pgs, free[i])
    ensures IsTable(mem, tabs[v / ENTRIES])
    ensures var mem', pgs' := WithPte(mem, tabs[v / ENTRIES], v % ENTRIES, MakePte(f, perm)), if v < USERPAGES
            then pgs[v := f] else pgs;
            && Space(mem', d, tabs, pgs') && MemOk(mem') && FramesKept(mem, mem', home) && PagesKept(mem, mem', pgs)
            && SamePtes(mem, mem', d, v) && Pte(mem', d, v) == MakePte(f, perm) && (v < USERPAGES ==> mem'[f] == mem[f])
            && forall i :: 0 <= i < |free| ==> Fresh(d, tabs, pgs', free[i])
  {
    PagesInRange(mem, d, tabs, pgs);
    MapPtes(mem, d, tabs, pgs, v, MakePte(f, perm));
    if v < USERPAGES {
      SpacePte(mem, d, tabs, pgs, v);
      SpaceMap(mem, d, tabs, pgs, v, f, perm);
      PagesInRange(WithPte(mem, tabs[v / ENTRIES], v % ENTRIES, MakePte(f, perm)), d, tabs, pgs[v := f]);
    } else {
      SpaceMapKernel(mem, d, tabs, pgs, v, MakePte(f, perm));
      PagesInRange(WithPte(mem, tabs[v / ENTRIES], v % ENTRIES, MakePte(f, perm)), d, tabs, pgs);
    }
    hide Space, SamePtes, Pte, MakePte;
    assert tabs[v / ENTRIES] in tabs.Values;
  }

  class Machine {
    var mem: Mem
    var free: seq<nat>

    ghost predicate Valid()
      reads this
    {
      && MemOk(mem) && (forall i :: 0 <= i < |free| ==> free[i] < |mem|)
      && forall i, j :: 0 <= i < j < |free| ==> free[i] != free[j]
    }

    /** An address space under construction from the frames of home: what is not part of it yet is
        either free or not in home. */
    ghost predicate Builds(d: nat, tabs: Tabs, pgs: Tabs, home: set<nat>)
      reads this
    {
      && Valid() && Space(mem, d, tabs, pgs) && d in home && tabs.Values <= home
      && forall i :: 0 <= i < |free| ==> Fresh(d, tabs, pgs, free[i]) && free[i] in home
    }

    /** kalloc (kalloc.c:86-104): the first page of the free list. */
    method Kalloc() returns (ok: bool, f: nat)
      requires Valid()
      modifies this`free
      ensures Valid() && (ok <==> old(free) != [])
      ensures ok ==> old(free) == [f] + free && f !in free && f < |mem|
      ensures !ok ==> free == old(free)
    {
      if free == [] {
        return false, 0;
      }
      f := free[0];
      free := free[1..];
      ok := true;
    }

    /** walkpgdir with alloc == 0 (vm.c:45-66): the table's frame, if there is one. */
    method Walk(d: nat, v: nat) returns (ok: bool, t: nat)
      requires IsTable(mem, d) && v / ENTRIES < ENTRIES
      ensures ok <==> Present(Pde(mem, d, v))
      ensures ok ==> t == FrameOf(Pde(mem, d, v))
    {
      var pde := mem[d].ptes[v / ENTRIES];
      ok := Present(pde);
      t := FrameOf(pde);
    }

    /** walkpgdir with alloc != 0, on an address space under construction. */
    method WalkAlloc(d: nat, v: nat, ghost tabs: Tabs, ghost pgs: Tabs, ghost home: set<nat>)
      returns (ok: bool, t: nat, ghost tabs': Tabs)
      requires Builds(d, tabs, pgs, home) && v / ENTRIES < ENTRIES
      modifies this
      ensures Builds(d, tabs', pgs, home) && FramesKept(old(mem), mem, home) && PagesKept(old(mem), mem, pgs)
      ensures SamePtes(old(mem), mem, d, -1) && forall f :: f in free ==> f in old(free)
      ensures ok ==> v / ENTRIES in tabs' && tabs'[v / ENTRIES] == t
      ensures !ok ==> free == [] && old(free) == [] && mem == old(mem) && !Present(Pde(mem, d, v))
      ensures Took(old(free), free, tabs, tabs', v, ok)
      ensures FreshKept(old(mem), mem, old(free), d, tabs, tabs', pgs)
    {
      assert TabOk(mem, d, tabs, v / ENTRIES);
      tabs' := tabs;
      var pde := mem[d].ptes[v / ENTRIES];
      if Present(pde) {
        return true, FrameOf(pde), tabs;
      }
      ok, t := Kalloc();
      if !ok {
        return;
      }
      assert t == old(free)[0];
      SpaceAddTable(mem, d, tabs, pgs, v / ENTRIES, t);
      AddTablePtes(mem, d, tabs, pgs, v / ENTRIES, t);
      PagesInRange(mem, d, tabs, pgs);
      hide Space, SamePtes;
      mem := mem[t := ZeroTable()];
      mem := WithPte(mem, d, v / ENTRIES, MakePte(t, PTE_W + PTE_U));
      tabs' := tabs[v / ENTRIES := t];
      forall i | 0 <= i < |free|
        ensures Fresh(d, tabs', pgs, free[i]) && free[i] in home
      {
        assert free[i] == old(free)[i + 1];
      }
      PagesInRange(mem, d, tabs', pgs);
    }

    /** One turn of mappages' loop (vm.c:81-89), for virtual page v and frame f. */
    method MapPage(d: nat, v: nat, f: nat, perm: nat, ghost tabs: Tabs, ghost pgs: Tabs, ghost home: set<nat>)
      returns (r: Outcome, ghost tabs': Tabs, ghost pgs': Tabs)
      requires Builds(d, tabs, pgs, home) && v / ENTRIES < ENTRIES && f < 0x10_0000 && perm < PGSIZE
      requires v < USERPAGES ==> f < |mem| && f !in free && Fresh(d, tabs, pgs, f)
      modifies this
      ensures Builds(d, tabs', pgs', home) && FramesKept(old(mem), mem, home) && PagesKept(old(mem), mem, pgs)
      ensures SamePtes(old(mem), mem, d, v) && forall f :: f in free ==> f in old(free)
      ensures v < USERPAGES ==> f < |mem| && mem[f] == old(mem[f])
      ensures pgs' == if r == Done && v < USERPAGES then pgs[v := f] else pgs
      ensures r == Done ==> Pte(mem, d, v) == MakePte(f, perm)
      ensures r == Panicked <==> Present(old(Pte(mem, d, v)))
      ensures r == NoMemory ==> free == []
      ensures Took(old(free), free, tabs, tabs', v, r != NoMemory)
    {
      var ok, t;
      pgs' := pgs;
      SamePte(mem, d, v);
      hide Space, Pte, SamePtes, FramesKept, PagesKept, MakePte;
      ok, t, tabs' := WalkAlloc(d, v, tabs, pgs, home);
      if !ok {
        NoTable(mem, d, v);
        FramesSelf(mem, home);
        WeakSame(old(mem), mem, d, v);
        return NoMemory, tabs', pgs';
      }
      EntryOf(mem, d, tabs', pgs, v);
      WeakSame(old(mem), mem, d, v);
      if Present(mem[t].ptes[v % ENTRIES]) {
        return Panicked, tabs', pgs';
      }
      MapStep(mem, free, d, tabs', pgs, v, f, perm, home);
      ghost var mem1 := mem;
      mem := WithPte(mem, t, v % ENTRIES, MakePte(f, perm));
      if v < USERPAGES {
        pgs' := pgs[v := f];
      }
      FramesTrans(old(mem), mem1, mem, home);
      SameTrans(old(mem), mem1, mem, d, v);
      PagesTrans(old(mem), mem1, mem, pgs);
      r := Done;
    }

    /** mappages on a range of kernel pages (vm.c:77-99). */
    method MapRange(d: nat, k: Kmap, ghost tabs: Tabs, ghost home: set<nat>) returns (r: Outcome, ghost tabs': Tabs)
      requires Builds(d, tabs, map[], home) && KmapOk(k)
      modifies this
      ensures Builds(d, tabs', map[], home) && FramesKept(old(mem), mem, home) && forall f :: f in free ==>
                f in old(free)
      ensures r == Done ==> Maps(mem, d, k, k.n) && SameOutside(old(mem), mem, d, k)
      ensures r == Done ==> forall v: nat :: InRange(k, v) ==> !Present(Pte(old(mem), d, v))
      ensures r == Panicked ==> exists v: nat :: InRange(k, v) && Present(Pte(old(mem), d, v))
      ensures r == NoMemory ==> free == []
    {
      hide Space, SamePtes, FramesKept, FreshKept, Pte;
      FramesSelf(mem, home);
      tabs' := tabs;
      var i := 0;
      ghost var none: Tabs := map[];
      while true
        invariant 0 <= i < k.n && Builds(d, tabs', none, home) && FramesKept(old(mem), mem, home)
        invariant forall f :: f in free ==> f in old(free)
        invariant Maps(mem, d, k, i) && SameFrom(old(mem), mem, d, k, i)
        invariant forall v: nat :: k.v <= v < k.v + i ==> !Present(Pte(old(mem), d, v))
        decreases k.n - i
      {
        ghost var pgs': Tabs;
        ghost var mem1 := mem;
        r, tabs', pgs' := MapPage(d, k.v + i, k.f + i, k.perm, tabs', none, home);
        FramesTrans(old(mem), mem1, mem, home);
        if r != Done {
          assert InRange(k, k.v + i) && Pte(mem1, d, k.v + i) == Pte(old(mem), d, k.v + i);
          return;
        }
        OneMore(old(mem), mem1, mem, d, k, i);
        if i == k.n - 1 {
          break;
        }
        i := i + 1;
      }
    }

    /** uva2ka (vm.c:395-409). The source does not test walkpgdir's result: without a table it takes
        what stands at address 0 for the entry. */
    method Uva2ka(d: nat, v: nat) returns (r: Reach, f: nat)
      requires IsTable(mem, d) && v / ENTRIES < ENTRIES
               && (Present(Pde(mem, d, v)) ==> IsTable(mem, FrameOf(Pde(mem, d, v))))
      ensures r == Tableless <==> !Present(Pde(mem, d, v))
      ensures r == Reached <==> Present(Pde(mem, d, v)) && UserOk(Pte(mem, d, v))
      ensures r == Reached ==> f == FrameOf(Pte(mem, d, v))
    {
      var ok, t := Walk(d, v);
      f := 0;
      if !ok {
        return Tableless, f;
      }
      var pte := mem[t].ptes[v % ENTRIES];
      if !Present(pte) {
        return Refused, f;
      }
      if pte / PTE_U % 2 == 0 {
        return Refused, f;
      }
      return Reached, FrameOf(pte);
    }

    /** copyout (vm.c:415-442), to user addresses below top, or to a kernel address. */
    method CopyOut(d: nat, va: U32, src: seq<Byte>, ghost tabs: Tabs, ghost pgs: Tabs, ghost top: nat)
      returns (r: Reach)
      requires Valid() && Space(mem, d, tabs, pgs) && AllData(mem, pgs) && top <= USERPAGES * PGSIZE
      requires va + |src| <= top || (USERPAGES * PGSIZE <= va && src != [] && KernelOnly(mem, d))
      modifies this`mem
      ensures Valid() && Space(mem, d, tabs, pgs) && AllData(mem, pgs) && SamePtes(old(mem), mem, d, -1)
      ensures r == Reached ==> va + |src| <= top && Image(mem, d, top) == Over(Image(old(mem), d, top), va, src)
      ensures r == Reached <==> UserRange(mem, d, va, |src|)
      ensures r == Tableless ==> !TableRange(mem, d, va, |src|)
      ensures USERPAGES * PGSIZE <= va && r == Tableless ==> !Present(Pde(mem, d, va / PGSIZE))
    {
      hide Image, Over, Space, SamePtes, AllData, Pte, Pde, UserOk, IsTable, UserRange, TableRange, KernelOnly, MemOk;
      var k := 0;
      SamePte(mem, d, -1);
      NoRange(mem, d, va);
      ghost var inside := va + |src| <= top;
      if inside {
        OverNothing(Image(mem, d, top), va);
      }
      assert src[..0] == [];
      while k < |src|
        invariant 0 <= k <= |src| && Valid() && Space(mem, d, tabs, pgs) && AllData(mem, pgs)
                  && SamePtes(old(mem), mem, d, -1)
        invariant inside ==> Image(mem, d, top) == Over(Image(old(mem), d, top), va, src[..k])
        invariant !inside ==> k == 0 && mem == old(mem)
        invariant UserRange(mem, d, va, k)
      {
        ghost var before := mem;
        var n;
        r, n := CopyOutPage(d, va + k, src[k..], tabs, pgs, top);
        if r != Reached {
          SameNone(old(mem), before, mem, d);
          NotUser(mem, d, va, |src|, va + k);
          return;
        }
        assert src[k..][..n] == src[k..k + n];
        OverMore(Image(old(mem), d, top), va, src, k, n);
        WeakSame(before, mem, d, (va + k) / PGSIZE);
        SameUser(old(mem), before, mem, d, va, k, n, (va + k) / PGSIZE);
        k := k + n;
      }
      assert src[..k] == src;
      r := Reached;
    }

    /** One turn of copyout's loop (vm.c:422-438): what goes into one page. */
    method CopyOutPage(d: nat, at: U32, src: seq<Byte>, ghost tabs: Tabs, ghost pgs: Tabs, ghost top: nat)
      returns (r: Reach, n: nat)
      requires Valid() && Space(mem, d, tabs, pgs) && AllData(mem, pgs) && src != [] && top <= USERPAGES * PGSIZE
      requires at + |src| <= top || (USERPAGES * PGSIZE <= at && KernelOnly(mem, d))
      modifies this`mem
      ensures Valid() && Space(mem, d, tabs, pgs) && AllData(mem, pgs) && SamePtes(old(mem), mem, d, -1)
      ensures r == Reached <==> UserOk(Pte(mem, d, at / PGSIZE))
      ensures r == Tableless <==> !Present(Pde(mem, d, at / PGSIZE))
      ensures r != Reached ==> mem == old(mem)
      ensures r == Reached ==>
                && at + |src| <= top && n == Min(PGSIZE - at % PGSIZE, |src|)
                && Image(mem, d, top) == Over(Image(old(mem), d, top), at, src[..n])
    {
      hide Image, Over, Space, SamePtes, AllData, Pte, Pde, UserOk, IsTable, KernelOnly;
      var v := at / PGSIZE;
      SamePte(mem, d, -1);
      WalkFacts(mem, d, tabs, pgs, v);
      n := 0;
      var f;
      r, f := Uva2ka(d, v);
      if r != Reached {
        return;
      }
      n := PGSIZE - at % PGSIZE;
      if n > |src| {
        n := |src|;
      }
      PageWritten(mem, d, tabs, pgs, v, at % PGSIZE, src[..n], top);
      ghost var before := mem;
      mem := mem[f := Data(Over(mem[f].bytes, at % PGSIZE, src[..n]))];
      MemStays(mem, d, tabs, pgs);
      WeakSame(before, mem, d, v);
      HasTable(mem, d, v);
    }

    /** allocuvm (vm.c:246-274) up to the clean-up after running out of memory. Of the pages from a to b
        the last is left without a frame if there is none for its table: the result is newsz all the same. */
    method AllocUvm(d: nat, oldsz: U32, newsz: U32, ghost tabs: Tabs, ghost pgs: Tabs, ghost home: set<nat>)
      returns (ok: bool, r: U32, ghost tabs': Tabs, ghost pgs': Tabs)
      requires Builds(d, tabs, pgs, home) && AllData(mem, pgs)
      requires forall v :: v in pgs ==> v < Pages(oldsz)
      modifies this
      ensures Builds(d, tabs', pgs', home) && AllData(mem, pgs')
      ensures SameApart(old(mem), mem, d, Pages(oldsz), Pages(newsz))
      ensures r == if !ok then 0 else if newsz < oldsz then oldsz else newsz
      ensures USERPAGES * PGSIZE <= newsz ==> !ok
      ensures ok && newsz < oldsz ==> mem == old(mem) && free == old(free) && pgs' == pgs
      ensures oldsz <= newsz < USERPAGES * PGSIZE ==>
                var a, b, n := Pages(oldsz), Pages(newsz), |old(free)|;
                && (ok <==> Enough(tabs.Keys, a, b, n) || LeftOut(tabs.Keys, a, b, n))
                && (Enough(tabs.Keys, a, b, n) ==> Grown(old(mem), mem, d, pgs, pgs', a, b))
                && (LeftOut(tabs.Keys, a, b, n) ==>
                      Grown(old(mem), mem, d, pgs, pgs', a, b - 1) && !Present(Pde(mem, d, b - 1)))
    {
      hide Space, Pte, PagesKept, SamePtes, SameApart, Grown, Needs, LastBare, UserOk;
      tabs', pgs' := tabs, pgs;
      SameSelf(mem, d, Pages(oldsz), Pages(newsz));
      if newsz >= USERPAGES * PGSIZE {
        return false, 0, tabs, pgs;
      }
      if newsz < oldsz {
        return true, oldsz, tabs, pgs;
      }
      ghost var a, b := Pages(oldsz), Pages(newsz);
      ghost var lost := false;
      PagesAt(oldsz, newsz);
      GrownNone(mem, d, pgs, a);
      var i := Pages(oldsz);
      while i * PGSIZE < newsz
        invariant a <= i && (i <= b || i == a) && b <= USERPAGES && Builds(d, tabs', pgs', home) && AllData(mem, pgs')
        invariant SameApart(old(mem), mem, d, a, b) && Grown(old(mem), mem, d, pgs, pgs', a, if lost then i - 1 else i)
        invariant Left(tabs.Keys, tabs'.Keys, a, i, b, |old(free)|, |free|, lost)
        decreases USERPAGES - i
      {
        PagesMore(i, newsz);
        ghost var mem1, pgs1, tabs1, n1, lost1 := mem, pgs', tabs', |free|, lost;
        NotGrown(old(mem), mem, d, pgs, pgs', a, if lost then i - 1 else i, i);
        var mapped;
        ok, mapped, tabs', pgs' := AllocPage(d, i, tabs', pgs', home);
        ApartMore(old(mem), mem1, mem, d, a, b, i);
        if !ok {
          LeftFails(tabs.Keys, tabs1.Keys, a, i, b, |old(free)|, lost1);
          return false, 0, tabs', pgs';
        }
        lost := !mapped;
        LeftMore(tabs.Keys, tabs1.Keys, tabs'.Keys, a, i, b, |old(free)|, n1, |free|, lost1, mapped);
        GrownStays(old(mem), mem1, mem, d, pgs, pgs1, a, i);
        if mapped {
          GrownMore(old(mem), mem, d, pgs, pgs1, pgs', a, i);
        }
        i := i + 1;
      }
      PagesDone(oldsz, newsz, i);
      LeftDone(tabs.Keys, tabs'.Keys, a, b, |old(free)|, |free|, lost);
      if lost {
        TableThere(mem, d, tabs', pgs', b - 1);
      }
      return true, newsz, tabs', pgs';
    }

    /** One turn of allocuvm's loop (vm.c:261-270): a zeroed page at v. The result of mappages is not
        looked at: ok says that there was a free page, mapped that it is in place. */
    method AllocPage(d: nat, v: nat, ghost tabs: Tabs, ghost pgs: Tabs, ghost home: set<nat>)
      returns (ok: bool, mapped: bool, ghost tabs': Tabs, ghost pgs': Tabs)
      requires Builds(d, tabs, pgs, home) && AllData(mem, pgs) && v < USERPAGES && v !in pgs
      modifies this
      ensures Builds(d, tabs', pgs', home) && AllData(mem, pgs') && PagesKept(old(mem), mem, pgs)
              && SamePtes(old(mem), mem, d, v)
      ensures ok <==> old(free) != []
      ensures mapped <==> |old(free)| >= if Present(old(Pde(mem, d, v))) then 1 else 2
      ensures mapped ==> v in pgs' && pgs' == pgs[v := pgs'[v]] && NewAt(mem, d, pgs', v)
      ensures !mapped ==> pgs' == pgs && free == [] && !Present(Pte(mem, d, v))
      ensures Used(old(free), free, tabs, tabs', v, mapped)
    {
      tabs', pgs' := tabs, pgs;
      TableThere(mem, d, tabs, pgs, v);
      SpacePte(mem, d, tabs, pgs, v);
      var f;
      ok, f := NewPage(d, tabs, pgs, home);
      if !ok {
        return false, false, tabs', pgs';
      }
      hide Space, SamePtes, Fresh;
      ghost var mem1 := mem;
      SpacePte(mem, d, tabs, pgs, v);
      var r;
      r, tabs', pgs' := MapPage(d, v, f, PTE_W + PTE_U, tabs, pgs, home);
      SameTrans(old(mem), mem1, mem, d, v);
      UserFlags(f);
      SpacePte(mem, d, tabs', pgs', v);
      mapped := r == Done;
    }

    /** kalloc and memset (vm.c:261-269). */
    method NewPage(d: nat, ghost tabs: Tabs, ghost pgs: Tabs, ghost home: set<nat>) returns (ok: bool, f: nat)
      requires Builds(d, tabs, pgs, home)
      modifies this
      ensures Builds(d, tabs, pgs, home) && PagesKept(old(mem), mem, pgs) && SamePtes(old(mem), mem, d, -1)
      ensures ok ==> f < |mem| && mem[f] == ZeroData() && f !in free && Fresh(d, tabs, pgs, f)
      ensures !ok ==> free == [] && mem == old(mem)
      ensures (ok <==> old(free) != []) && |free| == |old(free)| - (if ok then 1 else 0)
    {
      ok, f := Kalloc();
      if !ok {
        return;
      }
      assert f == old(free)[0];
      assert forall i :: 0 <= i < |free| ==> free[i] == old(free)[i + 1];
      FreshFacts(mem, d, tabs, pgs, f);
      SpaceData(mem, d, tabs, pgs, f, ZeroData());
      DataPtes(mem, d, tabs, pgs, f, ZeroData());
      hide Space, SamePtes, Fresh;
      mem := mem[f := ZeroData()];
    }

    /** clearpteu (vm.c:337-347); not ok: the panic. */
    method ClearPteU(d: nat, v: nat, ghost tabs: Tabs, ghost pgs: Tabs, ghost home: set<nat>) returns (ok: bool)
      requires Builds(d, tabs, pgs, home) && AllData(mem, pgs) && v < USERPAGES
      modifies this`mem
      ensures Builds(d, tabs, pgs, home) && AllData(mem, pgs) && PagesKept(old(mem), mem, pgs)
              && SamePtes(old(mem), mem, d, v)
      ensures ok <==> Present(old(Pde(mem, d, v)))
      ensures ok ==> Pte(mem, d, v) == Unflagged(old(Pte(mem, d, v)))
      ensures forall w: nat :: Pde(mem, d, w) == old(Pde(mem, d, w))
      ensures !UserOk(Pte(mem, d, v))
    {
      SpacePte(mem, d, tabs, pgs, v);
      assert TabOk(mem, d, tabs, v / ENTRIES) && PageAt(mem, d, tabs, pgs, v);
      PagesInRange(mem, d, tabs, pgs);
      var t;
      ok, t := Walk(d, v);
      if !ok {
        return;
      }
      var pte := mem[t].ptes[v % ENTRIES];
      WithoutU(pte);
      SpaceReflag(mem, d, tabs, pgs, v, Unflagged(pte));
      MapPtes(mem, d, tabs, pgs, v, Unflagged(pte));
      hide Space, SamePtes;
      mem := WithPte(mem, t, v % ENTRIES, Unflagged(pte));
      MemStays(mem, d, tabs, pgs);
    }

    /** copyuvm (vm.c:352-385) for sz bytes, that is n = sz / PGSIZE rounded up pages. */
    method CopyUvm(pd: nat, sz: U32, kmap: seq<Kmap>) returns (r: Outcome, d: nat, ghost pgs: Tabs)
      requires Valid() && (forall i :: 0 <= i < |kmap| ==> KmapOk(kmap[i])) && sz <= USERPAGES * PGSIZE
      requires IsTable(mem, pd) && pd !in free
      requires forall v: nat :: v * PGSIZE < sz ==> ParentSane(mem, pd, free, v)
      modifies this
      ensures FramesKept(old(mem), mem, ListSet(old(free)))
      ensures r == Panicked ==> !Disjoint(kmap) || !AllPresent(old(mem), pd, sz)
      ensures r == NoMemory ==> free == []
      ensures r == Done ==> AllPresent(old(mem), pd, sz)
      ensures r == Done ==>
                && KernelMapped(mem, d, kmap, |kmap|)
                && (forall v: nat :: v * PGSIZE < sz ==> CopiedPage(old(mem), pd, mem, d, old(free), v))
                && (forall v: nat :: sz <= v * PGSIZE && v < USERPAGES ==> !Present(Pte(mem, d, v)))
                && (forall v: nat, w: nat :: v != w && v * PGSIZE < sz && w * PGSIZE < sz ==>
                      FrameOf(Pte(mem, d, v)) != FrameOf(Pte(mem, d, w)))
      ensures forall v: nat :: v * PGSIZE < sz ==> ParentKept(old(mem), pd, mem, old(free), v)
    {
      ghost var home := ListSet(free);
      ghost var tabs: Tabs;
      pgs := map[];
      hide Space, SamePtes, PagesKept, FramesKept, CopiedPage, ParentKept, ParentSane, AllPresent, Fresh, KmapOk,
           KernelMapped,
           Disjoint, Copied, Pte;
      r, d, tabs := SetupKvm(kmap);
      ParentAll(old(mem), pd, mem, old(free), sz);
      if r != Done {
        return;
      }
      NoneCopied(old(mem), pd, mem, d, old(free));
      var i: nat := 0;
      while i * PGSIZE < sz
        invariant 0 <= i <= USERPAGES && Builds(d, tabs, pgs, home) && FramesKept(old(mem), mem, home) && r == Done
        invariant forall f :: f in free ==> f in old(free)
        invariant i > 0 ==> (i - 1) * PGSIZE < sz
        invariant forall v: nat :: v * PGSIZE < sz ==> ParentKept(old(mem), pd, mem, old(free), v)
        invariant Copied(old(mem), pd, mem, d, old(free), pgs, i) && KernelMapped(mem, d, kmap, |kmap|)
        decreases USERPAGES - i
      {
        assert ParentSane(old(mem), pd, old(free), i);
        ghost var mem1, pgs1 := mem, pgs;
        NotYet(old(mem), pd, mem, d, old(free), pgs, i);
        r, tabs, pgs := CopyPage(pd, d, i, old(mem), old(free), tabs, pgs, home);
        ParentAll(old(mem), pd, mem, old(free), sz);
        if r != Done {
          Absent(old(mem), pd, sz, i);
          return;
        }
        OneCopied(old(mem), pd, mem1, mem, d, old(free), tabs, pgs1, pgs, i);
        KernelStays(mem1, mem, d, kmap, i);
        i := i + 1;
      }
      CopiedAll(old(mem), pd, mem, d, old(free), tabs, pgs, sz, i);
      NoneAbsent(old(mem), pd, mem, d, old(free), sz);
    }

    /** One turn of copyuvm's loop (vm.c:363-382). It panics for a page the parent does not have; mappages
        does not panic, since the child has no page v yet. */
    method CopyPage(pd: nat, d: nat, v: nat, ghost mem0: Mem, ghost free0: seq<nat>, ghost tabs: Tabs, ghost pgs: Tabs,
                    ghost home: set<nat>)
      returns (r: Outcome, ghost tabs': Tabs, ghost pgs': Tabs)
      requires Builds(d, tabs, pgs, home) && home == ListSet(free0)
      requires FramesKept(mem0, mem, home)
      requires forall f :: f in free ==> f in free0
      requires IsTable(mem0, pd) && pd !in free0
      requires v < USERPAGES && ParentSane(mem0, pd, free0, v) && v !in pgs
      modifies this
      ensures Builds(d, tabs', pgs', home) && FramesKept(mem0, mem, home)
      ensures forall f :: f in free ==> f in free0
      ensures r == Panicked <==> !Present(Pte(mem0, pd, v))
      ensures r == NoMemory ==> free == []
      ensures r == Done ==>
                && SamePtes(old(mem), mem, d, v) && PagesKept(old(mem), mem, pgs)
                && v in pgs' && pgs'[v] in free0 && pgs' == pgs[v := pgs'[v]] && CopiedPage(mem0, pd, mem, d, free0, v)
    {
      hide Space, SamePtes, Fresh, ParentSane, Pte, Pde, MakePte;
      tabs', pgs' := tabs, pgs;
      ParentStays(mem0, mem, pd, free0, v);
      var ok, t := Walk(pd, v);
      if !ok {
        NoTable(mem, pd, v);
        return Panicked, tabs', pgs';
      }
      var pte := mem[t].ptes[v % ENTRIES];
      assert pte == Pte(mem0, pd, v);
      if !Present(pte) {
        return Panicked, tabs', pgs';
      }
      var m;
      ok, m := NewCopy(d, FrameOf(pte), tabs, pgs, home);
      if !ok {
        return NoMemory, tabs', pgs';
      }
      ghost var mem1 := mem;
      SpacePte(mem, d, tabs, pgs, v);
      r, tabs', pgs' := MapPage(d, v, m, FlagsOf(pte), tabs, pgs, home);
      SameTrans(old(mem), mem1, mem, d, v);
    }

    /** kalloc and memmove (vm.c:374-378): a new frame with the contents of frame f. */
    method NewCopy(d: nat, f: nat, ghost tabs: Tabs, ghost pgs: Tabs, ghost home: set<nat>) returns (ok: bool, m: nat)
      requires Builds(d, tabs, pgs, home) && f < |mem|
      modifies this
      ensures Builds(d, tabs, pgs, home) && FramesKept(old(mem), mem, home) && PagesKept(old(mem), mem, pgs)
      ensures SamePtes(old(mem), mem, d, -1) && forall g :: g in free ==> g in old(free)
      ensures ok ==> m < |mem| && mem[m] == old(mem[f]) && m in old(free) && m !in free && Fresh(d, tabs, pgs, m)
      ensures !ok ==> free == []
    {
      ok, m := Kalloc();
      if !ok {
        return;
      }
      assert m == old(free)[0] && m in home;
      assert forall i :: 0 <= i < |free| ==> free[i] == old(free)[i + 1];
      FreshFacts(mem, d, tabs, pgs, m);
      SpaceData(mem, d, tabs, pgs, m, mem[f]);
      DataPtes(mem, d, tabs, pgs, m, mem[f]);
      hide Space, SamePtes, Fresh;
      mem := mem[m := mem[f]];
    }

    /** setupkvm (vm.c:139-160), with the kernel's own mappings as a parameter. */
    method SetupKvm(kmap: seq<Kmap>) returns (r: Outcome, d: nat, ghost tabs: Tabs)
      requires Valid() && forall i :: 0 <= i < |kmap| ==> KmapOk(kmap[i])
      modifies this
      ensures FramesKept(old(mem), mem, ListSet(old(free))) && forall f :: f in free ==> f in old(free)
      ensures r == Done ==>
                Builds(d, tabs, map[], ListSet(old(free))) && KernelMapped(mem, d, kmap, |kmap|)
                && OnlyMapped(mem, d, kmap, |kmap|)
      ensures r == Done && (forall i :: 0 <= i < |kmap| ==> kmap[i].perm / PTE_U % 2 == 0) ==> KernelOnly(mem, d)
      ensures r == Panicked ==> !Disjoint(kmap)
      ensures r == NoMemory ==> free == []
    {
      ghost var home := ListSet(free);
      var ok;
      ok, d := Kalloc();
      tabs := map[];
      if !ok {
        return NoMemory, d, tabs;
      }
      assert d == old(free)[0];
      mem := mem[d := ZeroTable()];
      EmptySpace(mem, d);
      forall i | 0 <= i < |free|
        ensures Fresh(d, map[], map[], free[i]) && free[i] in home
      {
        assert free[i] == old(free)[i + 1];
      }
      NothingMapped(mem, d, kmap);
      hide Space, Pte, FramesKept, KernelMapped, OnlyMapped, Maps, SameOutside, KmapOk, Disjoint;
      var i := 0;
      r := Done;
      while i < |kmap|
        invariant 0 <= i <= |kmap| && r == Done && Builds(d, tabs, map[], home)
        invariant FramesKept(old(mem), mem, home) && forall f :: f in free ==> f in old(free)
        invariant KernelMapped(mem, d, kmap, i) && OnlyMapped(mem, d, kmap, i)
      {
        ghost var mem1 := mem;
        r, tabs := MapRange(d, kmap[i], tabs, home);
        FramesTrans(old(mem), mem1, mem, home);
        if r != Done {
          if r == Panicked {
            Overlap(mem1, d, kmap, i);
          }
          return;
        }
        RangeMapped(mem1, mem, d, kmap, i);
        i := i + 1;
      }
      if forall j :: 0 <= j < |kmap| ==> kmap[j].perm / PTE_U % 2 == 0 {
        KernelNotUser(mem, d, kmap);
      }
    }
  }

  /** No two of the kernel's own mappings share a page. */
  ghost predicate Disjoint(kmap: seq<Kmap>) {
    forall i, j, v: nat :: 0 <= i < j < |kmap| && InRange(kmap[i], v) ==> !InRange(kmap[j], v)
  }

  /** The first n of the kernel's own mappings are in place. */
  ghost predicate KernelMapped(mem: Mem, d: nat, kmap: seq<Kmap>, n: nat)
    requires n <= |kmap|
  {
    forall i :: 0 <= i < n ==> KmapOk(kmap[i]) && Maps(mem, d, kmap[i], kmap[i].n)
  }

  ghost predicate OnlyMapped(mem: Mem, d: nat, kmap: seq<Kmap>, n: nat)
    requires n <= |kmap|
  {
    forall v: nat :: v < PAGES && Present(Pte(mem, d, v)) ==> exists i :: 0 <= i < n && InRange(kmap[i], v)
  }

  lemma {:induction false} NothingMapped(mem: Mem, d: nat, kmap: seq<Kmap>)
    requires d < |mem| && mem[d] == ZeroTable()
    ensures KernelMapped(mem, d, kmap, 0) && OnlyMapped(mem, d, kmap, 0)
  {
  }

  lemma {:induction false} RangeMapped(mem1: Mem, mem: Mem, d: nat, kmap: seq<Kmap>, i: nat)
    requires i < |kmap| && KernelMapped(mem1, d, kmap, i) && OnlyMapped(mem1, d, kmap, i) && KmapOk(kmap[i])
    requires Maps(mem, d, kmap[i], kmap[i].n) && SameOutside(mem1, mem, d, kmap[i])
    requires forall v: nat :: InRange(kmap[i], v) ==> !Present(Pte(mem1, d, v))
    ensures KernelMapped(mem, d, kmap, i + 1) && OnlyMapped(mem, d, kmap, i + 1)
  {
    hide Pte;
    forall j | 0 <= j < i
      ensures Maps(mem, d, kmap[j], kmap[j].n)
    {
      assert Maps(mem1, d, kmap[j], kmap[j].n);
      forall v: nat | InRange(kmap[j], v)
        ensures Pte(mem, d, v) == Pte(mem1, d, v)
      {
        assert Present(Pte(mem1, d, v));
      }
    }
    forall v: nat | v < PAGES && Present(Pte(mem, d, v))
      ensures exists j :: 0 <= j < i + 1 && InRange(kmap[j], v)
    {
      if !InRange(kmap[i], v) {
        var j :| 0 <= j < i && InRange(kmap[j], v);
      }
    }
  }

  /** Without PTE_U in the kernel's own mappings, its half is not for users. */
  lemma {:induction false} KernelNotUser(mem: Mem, d: nat, kmap: seq<Kmap>)
    requires KernelMapped(mem, d, kmap, |kmap|) && OnlyMapped(mem, d, kmap, |kmap|)
    requires forall i :: 0 <= i < |kmap| ==> kmap[i].perm / PTE_U % 2 == 0
    ensures KernelOnly(mem, d)
  {
    hide Pte;
    forall v: nat | USERPAGES <= v < PAGES && Present(Pte(mem, d, v))
      ensures !UserOk(Pte(mem, d, v))
    {
      var i :| 0 <= i < |kmap| && InRange(kmap[i], v);
      assert Maps(mem, d, kmap[i], kmap[i].n);
      NoUserBit(kmap[i].f + (v - kmap[i].v), kmap[i].perm);
    }
  }

  lemma {:induction false} NoUserBit(f: nat, perm: nat)
    requires f < 0x10_0000 && perm < PGSIZE && perm / PTE_U % 2 == 0
    ensures !UserOk(MakePte(f, perm))
  {
    var pte := MakePte(f, perm);
    var low := perm + (1 - perm % 2);
    assert pte == 4 * (1024 * f + low / 4) + low % 4;
    assert low / 4 == perm / 4;
    assert pte / 4 == 1024 * f + perm / 4;
    assert pte / 4 == 2 * (512 * f + perm / 8) + perm / 4 % 2;
  }

  /** Mapping a user page leaves the kernel's half alone. */
  lemma {:induction false} KernelStays(mem: Mem, mem': Mem, d: nat, kmap: seq<Kmap>, v: nat)
    requires KernelMapped(mem, d, kmap, |kmap|) && SamePtes(mem, mem', d, v) && v < USERPAGES
    ensures KernelMapped(mem', d, kmap, |kmap|)
  {
    hide Pte, MakePte;
    forall i | 0 <= i < |kmap|
      ensures Maps(mem', d, kmap[i], kmap[i].n)
    {
      assert Maps(mem, d, kmap[i], kmap[i].n);
    }
  }

  lemma {:induction false} Overlap(mem: Mem, d: nat, kmap: seq<Kmap>, i: nat)
    requires i < |kmap| && KmapOk(kmap[i]) && OnlyMapped(mem, d, kmap, i)
    requires exists v: nat :: InRange(kmap[i], v) && Present(Pte(mem, d, v))
    ensures !Disjoint(kmap)
  {
    var v: nat :| InRange(kmap[i], v) && Present(Pte(mem, d, v));
    var j :| 0 <= j < i && InRange(kmap[j], v);
    assert InRange(kmap[j], v) && InRange(kmap[i], v);
  }

  ghost function ListSet(s: seq<nat>): set<nat> {
    set f | f in s
  }

  lemma {:induction false} EmptySpace(mem: Mem, d: nat)
    requires MemOk(mem) && d < |mem| && mem[d] == ZeroTable()
    ensures Space(mem, d, map[], map[])
  {
  }

  // ---- allocuvm ----

  /** The pages of sz bytes. */
  function Pages(sz: nat): nat {
    (sz + PGSIZE - 1) / PGSIZE
  }

  /** Frames that pages a to b take, where there are tables for the slots of have. */
  function Needs(have: set<nat>, a: nat, b: nat): nat
    decreases b - a
  {
    if a >= b then 0 else (if a / ENTRIES in have then 1 else 2) + Needs(have + {a / ENTRIES}, a + 1, b)
  }

  /** The last of pages a to b is the first one in its table, and there is no such table yet. */
  predicate LastBare(have: set<nat>, a: nat, b: nat)
    decreases b - a
  {
    a < b && if a + 1 == b then a / ENTRIES !in have else LastBare(have + {a / ENTRIES}, a + 1, b)
  }

  ghost predicate Enough(have: set<nat>, a: nat, b: nat, n: nat) {
    Needs(have, a, b) <= n
  }

  /** All but the last page find their frames: it finds its own, but none for its table. */
  ghost predicate LeftOut(have: set<nat>, a: nat, b: nat, n: nat) {
    n + 1 == Needs(have, a, b) && LastBare(have, a, b)
  }

  /** One frame for every page and one for every slot without a table. */
  lemma {:induction false} NeedsFrames(have: set<nat>, a: nat, b: nat)
    requires a < b
    ensures Needs(have, a, b) == (b - a) + |Missing(have, a, b)|
    decreases b - a
  {
    hide Missing, Needs;
    var first := a / ENTRIES;
    NeedsStep(have, a, b);
    if a + 1 == b {
      NeedsNone(have + {first}, b);
      MissingOne(have, a);
    } else {
      NeedsFrames(have + {first}, a + 1, b);
      MissingStep(have, a, b);
      LessOne(Missing(have, a, b), first);
    }
  }

  lemma {:induction false} NeedsStep(have: set<nat>, a: nat, b: nat)
    requires a < b
    ensures Needs(have, a, b) == (if a / ENTRIES in have then 1 else 2) + Needs(have + {a / ENTRIES}, a + 1, b)
  {
  }

  lemma {:induction false} NeedsNone(have: set<nat>, b: nat)
    ensures Needs(have, b, b) == 0
  {
  }

  lemma {:induction false} LessOne(s: set<nat>, x: nat)
    ensures |s| == |s - {x}| + if x in s then 1 else 0
  {
    if x !in s {
      assert s - {x} == s;
    }
  }

  lemma {:induction false} MissingOne(have: set<nat>, a: nat)
    ensures |Missing(have, a, a + 1)| == if a / ENTRIES in have then 0 else 1
  {
    assert Missing(have, a, a + 1) == if a / ENTRIES in have then {} else {a / ENTRIES};
  }

  /** The slots of pages a to b without a table. */
  ghost function Missing(have: set<nat>, a: nat, b: nat): set<nat>
    requires a < b
  {
    set s: nat | a / ENTRIES <= s <= (b - 1) / ENTRIES && s !in have
  }

  lemma {:induction false} MissingStep(have: set<nat>, a: nat, b: nat)
    requires a + 1 < b
    ensures Missing(have + {a / ENTRIES}, a + 1, b) == Missing(have, a, b) - {a / ENTRIES}
    ensures a / ENTRIES in Missing(have, a, b) <==> a / ENTRIES !in have
  {
    var first, next, last := a / ENTRIES, (a + 1) / ENTRIES, (b - 1) / ENTRIES;
    assert first <= next <= first + 1 && first <= last;
  }

  lemma {:induction false} LastBareAt(have: set<nat>, a: nat, b: nat)
    requires a < b
    ensures LastBare(have, a, b) <==> (b - 1) / ENTRIES !in have && (a + 1 == b || (b - 1) % ENTRIES == 0)
    decreases b - a
  {
    if a + 1 < b {
      LastBareAt(have + {a / ENTRIES}, a + 1, b);
      assert a + 2 == b ==> ((b - 1) / ENTRIES == a / ENTRIES <==> (b - 1) % ENTRIES != 0);
      assert (b - 1) % ENTRIES == 0 ==> (b - 1) / ENTRIES != a / ENTRIES;
    }
  }

  /** One free page and no table for page 0: allocuvm takes the page, maps nothing and returns newsz. */
  method GrowthLeftOut() returns (ok: bool, r: U32, present: bool)
    ensures ok && r == 1 && !present
  {
    var m := new Machine;
    m.mem, m.free := [ZeroTable(), Junk], [1];
    EmptySpace(m.mem, 0);
    assert Needs({0}, 1, 1) == 0;
    ghost var tabs, pgs;
    ok, r, tabs, pgs := m.AllocUvm(0, 0, 1, map[], map[], {0, 1});
    assert LeftOut({}, 0, 1, 1);
    NoTable(m.mem, 0, 0);
    present := Present(Pte(m.mem, 0, 0));
  }

  /** The books at page i of a to b: n free frames at first, left now; lost: page i - 1 has no table. */
  ghost predicate Left(have: set<nat>, have': set<nat>, a: nat, i: nat, b: nat, n: nat, left: nat, lost: bool) {
    if lost then
      && left == 0 && a < i <= b && (i - 1) / ENTRIES !in have'
      && n + 1 + Needs(have' + {(i - 1) / ENTRIES}, i, b) == Needs(have, a, b)
      && (i == b ==> LastBare(have, a, b))
    else
      && left <= n && n - left + Needs(have', i, b) == Needs(have, a, b)
      && (i < b ==> (LastBare(have, a, b) <==> LastBare(have', i, b)))
  }

  lemma {:induction false} LeftFails(have: set<nat>, have': set<nat>, a: nat, i: nat, b: nat, n: nat, lost: bool)
    requires Left(have, have', a, i, b, n, 0, lost) && i < b
    ensures !Enough(have, a, b, n) && !LeftOut(have, a, b, n)
  {
    if i + 1 < b {
      assert Needs(have' + {i / ENTRIES}, i + 1, b) > 0;
    }
  }

  lemma {:induction false} LeftMore(have: set<nat>, have1: set<nat>, have2: set<nat>, a: nat, i: nat, b: nat, n: nat,
                                    left1: nat, left2: nat, lost: bool, mapped: bool)
    requires Left(have, have1, a, i, b, n, left1, lost) && a <= i < b && left1 > 0
    requires mapped <==> left1 >= if i / ENTRIES in have1 then 1 else 2
    requires have2 == if mapped then have1 + {i / ENTRIES} else have1
    requires left2 == if mapped then left1 - (if i / ENTRIES in have1 then 1 else 2) else 0
    ensures Left(have, have2, a, i + 1, b, n, left2, !mapped)
  {
  }

  lemma {:induction false} LeftDone(have: set<nat>, have': set<nat>, a: nat, b: nat, n: nat, left: nat, lost: bool)
    requires a <= b && Left(have, have', a, b, b, n, left, lost)
    ensures lost <==> LeftOut(have, a, b, n)
    ensures lost ==> a < b && (b - 1) / ENTRIES !in have'
    ensures !lost <==> Enough(have, a, b, n)
  {
  }

  lemma {:induction false} PagesAt(oldsz: U32, newsz: U32)
    requires oldsz <= newsz < USERPAGES * PGSIZE
    ensures Pages(oldsz) <= Pages(newsz) <= USERPAGES
  {
  }

  lemma {:induction false} PagesMore(i: nat, newsz: U32)
    requires i * PGSIZE < newsz
    ensures i < Pages(newsz)
  {
  }

  lemma {:induction false} PagesDone(oldsz: U32, newsz: U32, i: nat)
    requires i * PGSIZE >= newsz && oldsz <= newsz && (i <= Pages(newsz) || i == Pages(oldsz))
    ensures i == Pages(newsz)
  {
  }

  /** Page v is there for users, and zero. */
  ghost predicate NewAt(mem: Mem, d: nat, pgs: Tabs, v: nat) {
    v in pgs && pgs[v] < |mem| && mem[pgs[v]] == ZeroData() && UserOk(Pte(mem, d, v))
  }

  /** No mapping but those of pages a to b has changed. */
  ghost predicate SameApart(mem: Mem, mem': Mem, d: nat, a: nat, b: nat) {
    forall v: nat :: v < PAGES && !(a <= v < b) ==> Pte(mem', d, v) == Pte(mem, d, v)
  }

  /** Pages a to b are new, and the pages from before are what they were. */
  ghost predicate Grown(mem: Mem, mem': Mem, d: nat, pgs: Tabs, pgs': Tabs, a: nat, b: int) {
    && (forall v :: v in pgs' <==> v in pgs || a <= v < b) && PagesKept(mem, mem', pgs)
    && (forall v :: v in pgs && v in pgs' ==> pgs'[v] == pgs[v])
    && forall v: nat :: a <= v < b ==> NewAt(mem', d, pgs', v)
  }

  lemma {:induction false} SameSelf(mem: Mem, d: nat, a: nat, b: nat)
    ensures SameApart(mem, mem, d, a, b)
  {
  }

  lemma {:induction false} ApartMore(mem0: Mem, mem1: Mem, mem: Mem, d: nat, a: nat, b: nat, i: nat)
    requires SameApart(mem0, mem1, d, a, b) && SamePtes(mem1, mem, d, i) && a <= i < b
    ensures SameApart(mem0, mem, d, a, b)
  {
    hide Pte;
  }

  lemma {:induction false} GrownNone(mem: Mem, d: nat, pgs: Tabs, a: nat)
    ensures Grown(mem, mem, d, pgs, pgs, a, a)
  {
  }

  lemma {:induction false} NotGrown(mem: Mem, mem': Mem, d: nat, pgs: Tabs, pgs': Tabs, a: nat, b: int, v: nat)
    requires Grown(mem, mem', d, pgs, pgs', a, b) && b <= v && forall w :: w in pgs ==> w < v
    ensures v !in pgs'
  {
  }

  /** The pages stay what they are while another is added. */
  lemma {:induction false} GrownStays(mem0: Mem, mem1: Mem, mem: Mem, d: nat, pgs: Tabs, pgs1: Tabs, a: nat, i: nat)
    requires Grown(mem0, mem1, d, pgs, pgs1, a, i) && SamePtes(mem1, mem, d, i) && PagesKept(mem1, mem, pgs1)
             && i <= USERPAGES && AllData(mem1, pgs1)
    ensures Grown(mem0, mem, d, pgs, pgs1, a, i)
  {
    hide Pte, UserOk;
    forall w | w in pgs && pgs[w] < |mem0|
      ensures mem[pgs[w]] == mem0[pgs[w]]
    {
      assert w in pgs1 && pgs1[w] == pgs[w];
    }
    forall v: nat | a <= v < i
      ensures NewAt(mem, d, pgs1, v)
    {
      assert NewAt(mem1, d, pgs1, v);
    }
  }

  lemma {:induction false} GrownMore(mem: Mem, mem': Mem, d: nat, pgs: Tabs, pgs1: Tabs, pgs2: Tabs, a: nat, i: nat)
    requires Grown(mem, mem', d, pgs, pgs1, a, i) && a <= i && i !in pgs
    requires NewAt(mem', d, pgs2, i) && pgs2 == pgs1[i := pgs2[i]]
    ensures Grown(mem, mem', d, pgs, pgs2, a, i + 1)
  {
    hide Pte, UserOk;
    forall v: nat | a <= v < i
      ensures NewAt(mem', d, pgs2, v)
    {
      assert NewAt(mem', d, pgs1, v);
    }
  }

  /** What one page takes: a frame, and another for its table if there is none. */
  ghost predicate Used(free: seq<nat>, free': seq<nat>, tabs: Tabs, tabs': Tabs, v: nat, mapped: bool) {
    && (mapped <==> |free| >= if v / ENTRIES in tabs then 1 else 2)
    && tabs'.Keys == (if mapped then tabs.Keys + {v / ENTRIES} else tabs.Keys)
    && |free'| == if mapped then |free| - (if v / ENTRIES in tabs then 1 else 2) else 0
  }

  lemma {:induction false} TableThere(mem: Mem, d: nat, tabs: Tabs, pgs: Tabs, v: nat)
    requires Space(mem, d, tabs, pgs) && v < PAGES
    ensures v / ENTRIES in tabs <==> Present(Pde(mem, d, v))
  {
    assert TabOk(mem, d, tabs, v / ENTRIES);
  }

  // ---- copyuvm ----

  /** Page v of the parent: its table and its frame, where it has them, are not free. */
  ghost predicate ParentSane(mem: Mem, pd: nat, free: seq<nat>, v: nat) {
    && (Present(Pde(mem, pd, v)) ==> IsTable(mem, FrameOf(Pde(mem, pd, v))) && FrameOf(Pde(mem, pd, v)) !in free)
    && (Present(Pte(mem, pd, v)) ==> FrameOf(Pte(mem, pd, v)) < |mem| && FrameOf(Pte(mem, pd, v)) !in free)
  }

  /** The parent has all pages of sz bytes. */
  ghost predicate AllPresent(mem: Mem, pd: nat, sz: nat) {
    forall v: nat :: v * PGSIZE < sz ==> Present(Pte(mem, pd, v))
  }

  lemma {:induction false} Absent(mem: Mem, pd: nat, sz: nat, v: nat)
    requires v * PGSIZE < sz
    ensures !Present(Pte(mem, pd, v)) ==> !AllPresent(mem, pd, sz)
  {
  }

  lemma {:induction false} NoneAbsent(mem: Mem, pd: nat, mem': Mem, d: nat, free: seq<nat>, sz: nat)
    requires forall v: nat :: v * PGSIZE < sz ==> CopiedPage(mem, pd, mem', d, free, v)
    ensures AllPresent(mem, pd, sz)
  {
    hide Pte;
    forall v: nat | v * PGSIZE < sz
      ensures Present(Pte(mem, pd, v))
    {
      assert CopiedPage(mem, pd, mem', d, free, v);
    }
  }

  /** The child's page v: its own new frame, with the parent's contents and flags. */
  ghost predicate CopiedPage(mem: Mem, pd: nat, mem': Mem, d: nat, free: seq<nat>, v: nat) {
    var p, c := Pte(mem, pd, v), Pte(mem', d, v);
    && Present(p) && Present(c) && FlagsOf(c) == FlagsOf(p)
    && FrameOf(p) < |mem| && FrameOf(c) < |mem'| && FrameOf(c) in free && mem'[FrameOf(c)] == mem[FrameOf(p)]
  }

  lemma {:induction false} ParentStays(mem: Mem, mem': Mem, pd: nat, free: seq<nat>, v: nat)
    requires FramesKept(mem, mem', ListSet(free)) && pd !in free && ParentSane(mem, pd, free, v) && IsTable(mem, pd)
    ensures IsTable(mem', pd) && Pde(mem', pd, v) == Pde(mem, pd, v) && Pte(mem', pd, v) == Pte(mem, pd, v)
    ensures Present(Pde(mem, pd, v)) ==>
              var t := FrameOf(Pde(mem, pd, v)); IsTable(mem', t) && Pte(mem, pd, v) == mem'[t].ptes[v % ENTRIES]
    ensures Present(Pte(mem, pd, v)) ==>
              var f := FrameOf(Pte(mem, pd, v)); f < |mem| == |mem'| && mem'[f] == mem[f]
  {
    assert pd !in ListSet(free);
    assert Present(Pde(mem, pd, v)) ==> FrameOf(Pde(mem, pd, v)) !in ListSet(free);
    assert Present(Pte(mem, pd, v)) ==> FrameOf(Pte(mem, pd, v)) !in ListSet(free);
  }

  /** The parent still maps page v as before, to a frame with the same contents that no child page
      can be, since those come from the free list. */
  ghost predicate ParentKept(mem: Mem, pd: nat, mem': Mem, free: seq<nat>, v: nat) {
    var p := Pte(mem, pd, v);
    && Pte(mem', pd, v) == p && |mem'| == |mem|
    && (Present(p) ==> FrameOf(p) < |mem| && mem'[FrameOf(p)] == mem[FrameOf(p)] && FrameOf(p) !in free)
  }

  lemma {:induction false} ParentAll(mem: Mem, pd: nat, mem': Mem, free: seq<nat>, sz: nat)
    requires FramesKept(mem, mem', ListSet(free)) && pd !in free && IsTable(mem, pd)
    requires forall v: nat :: v * PGSIZE < sz ==> ParentSane(mem, pd, free, v)
    ensures forall v: nat :: v * PGSIZE < sz ==> ParentKept(mem, pd, mem', free, v)
  {
    forall v: nat | v * PGSIZE < sz
      ensures ParentKept(mem, pd, mem', free, v)
    {
      ParentStays(mem, mem', pd, free, v);
    }
  }

  lemma {:induction false} FreshFacts(mem: Mem, d: nat, tabs: Tabs, pgs: Tabs, f: nat)
    requires Fresh(d, tabs, pgs, f)
    ensures f != d && f !in tabs.Values && forall w :: w in pgs ==> pgs[w] != f
  {
  }

  lemma {:induction false} SameTrans(m0: Mem, m1: Mem, m2: Mem, d: nat, v: nat)
    requires SamePtes(m0, m1, d, -1) && SamePtes(m1, m2, d, v)
    ensures SamePtes(m0, m2, d, v)
  {
  }

  /** A page copied earlier is still there after one more page. */
  lemma {:induction false} CopiedStays(mem0: Mem, pd: nat, mem1: Mem, mem2: Mem, d: nat, free: seq<nat>, tabs: Tabs,
                                       pgs: Tabs, pgs1: Tabs, v: nat, i: nat)
    requires CopiedPage(mem0, pd, mem1, d, free, v) && SamePtes(mem1, mem2, d, i) && PagesKept(mem1, mem2, pgs1)
    requires v < i < USERPAGES && Space(mem2, d, tabs, pgs) && v in pgs1 && i in pgs && pgs == pgs1[i := pgs[i]]
    ensures CopiedPage(mem0, pd, mem2, d, free, v)
  {
    SpacePte(mem2, d, tabs, pgs, v);
  }

  /** The first n pages are copied, to frames from the free list. */
  ghost predicate Copied(mem0: Mem, pd: nat, mem: Mem, d: nat, free: seq<nat>, pgs: Tabs, n: nat) {
    && (forall v :: v in pgs <==> 0 <= v < n) && (forall v :: v in pgs ==> pgs[v] in free)
    && forall v: nat :: v < n ==> CopiedPage(mem0, pd, mem, d, free, v)
  }

  lemma {:induction false} NoneCopied(mem0: Mem, pd: nat, mem: Mem, d: nat, free: seq<nat>)
    ensures Copied(mem0, pd, mem, d, free, map[], 0)
  {
  }

  lemma {:induction false} NotYet(mem0: Mem, pd: nat, mem: Mem, d: nat, free: seq<nat>, pgs: Tabs, n: nat)
    requires Copied(mem0, pd, mem, d, free, pgs, n)
    ensures n !in pgs
  {
  }

  lemma {:induction false} OneCopied(mem0: Mem, pd: nat, mem1: Mem, mem: Mem, d: nat, free: seq<nat>, tabs: Tabs,
                                     pgs1: Tabs, pgs: Tabs, i: nat)
    requires Copied(mem0, pd, mem1, d, free, pgs1, i) && SamePtes(mem1, mem, d, i) && PagesKept(mem1, mem, pgs1)
             && i < USERPAGES
    requires Space(mem, d, tabs, pgs) && i in pgs && pgs == pgs1[i := pgs[i]] && pgs[i] in free
             && CopiedPage(mem0, pd, mem, d, free, i)
    ensures Copied(mem0, pd, mem, d, free, pgs, i + 1)
  {
    hide CopiedPage, SamePtes, PagesKept, Space;
    forall v: nat | v < i
      ensures CopiedPage(mem0, pd, mem, d, free, v)
    {
      CopiedStays(mem0, pd, mem1, mem, d, free, tabs, pgs, pgs1, v, i);
    }
  }

  /** When the loop is done. */
  lemma {:induction false} CopiedAll(mem0: Mem, pd: nat, mem: Mem, d: nat, free: seq<nat>, tabs: Tabs, pgs: Tabs,
                                     sz: nat, n: nat)
    requires Space(mem, d, tabs, pgs) && n <= USERPAGES && sz <= n * PGSIZE && (n > 0 ==> (n - 1) * PGSIZE < sz)
    requires Copied(mem0, pd, mem, d, free, pgs, n)
    ensures forall v: nat :: v * PGSIZE < sz ==> CopiedPage(mem0, pd, mem, d, free, v)
    ensures forall v: nat :: sz <= v * PGSIZE && v < USERPAGES ==> !Present(Pte(mem, d, v))
    ensures forall v: nat, w: nat :: v != w && v * PGSIZE < sz && w * PGSIZE < sz ==>
              FrameOf(Pte(mem, d, v)) != FrameOf(Pte(mem, d, w))
  {
    forall v: nat | sz <= v * PGSIZE && v < USERPAGES
      ensures !Present(Pte(mem, d, v))
    {
      SpacePte(mem, d, tabs, pgs, v);
    }
    forall v: nat, w: nat | v != w && v * PGSIZE < sz && w * PGSIZE < sz
      ensures FrameOf(Pte(mem, d, v)) != FrameOf(Pte(mem, d, w))
    {
      SpacePte(mem, d, tabs, pgs, v);
      SpacePte(mem, d, tabs, pgs, w);
    }
  }

  lemma {:induction false} PagesInRange(mem: Mem, d: nat, tabs: Tabs, pgs: Tabs)
    requires Space(mem, d, tabs, pgs)
    ensures MemOk(mem) && d < |mem| && IsTable(mem, d) && (forall w :: w in pgs ==> pgs[w] < |mem| && pgs[w] != d)
    ensures forall i, w :: i in tabs && w in pgs ==> tabs[i] != pgs[w]
  {
    forall w | w in pgs
      ensures pgs[w] < |mem|
    {
      assert PageAt(mem, d, tabs, pgs, w);
    }
  }

  // ---- the bytes a user address leads to ----

  /** What uva2ka finds: a page, a page that is not for users, or no page table. */
  datatype Reach = Reached | Refused | Tableless

  predicate UserOk(pte: U32) {
    Present(pte) && pte / PTE_U % 2 == 1
  }

  /** The byte at user address a. */
  function VByte(mem: Mem, d: nat, a: nat): Byte {
    var f := FrameOf(Pte(mem, d, a / PGSIZE));
    if Present(Pte(mem, d, a / PGSIZE)) && f < |mem| && mem[f].Data?
       && |mem[f].bytes| == PGSIZE then mem[f].bytes[a % PGSIZE] else 0
  }

  /** User memory below top. */
  function Image(mem: Mem, d: nat, top: nat): (s: seq<Byte>)
    ensures |s| == top && forall a :: 0 <= a < top ==> s[a] == VByte(mem, d, a)
  {
    seq(top, (a: nat) => VByte(mem, d, a))
  }

  /** src written over s at va. */
  function Over(s: seq<Byte>, va: nat, src: seq<Byte>): (r: seq<Byte>)
    requires va + |src| <= |s|
    ensures |r| == |s| && forall a :: 0 <= a < |s| ==> r[a] == if va <= a < va + |src| then src[a - va] else s[a]
  {
    s[..va] + src + s[va + |src|..]
  }

  /** All user pages hold bytes. */
  ghost predicate AllData(mem: Mem, pgs: Tabs) {
    forall v :: v in pgs ==> pgs[v] < |mem| && mem[pgs[v]].Data? && |mem[pgs[v]].bytes| == PGSIZE
  }

  /** Writing into the frame of page v changes bytes of page v only. */
  lemma {:induction false} PageWritten(mem: Mem, d: nat, tabs: Tabs, pgs: Tabs, v: nat, o: nat, src: seq<Byte>,
                                       top: nat)
    requires Space(mem, d, tabs, pgs) && AllData(mem, pgs) && v in pgs && o + |src| <= PGSIZE
    requires v * PGSIZE + o + |src| <= top <= USERPAGES * PGSIZE
    ensures var f := pgs[v];
            var mem' := mem[f := Data(Over(mem[f].bytes, o, src))];
            && Space(mem', d, tabs, pgs) && AllData(mem', pgs) && SamePtes(mem, mem', d, -1)
            && Image(mem', d, top) == Over(Image(mem, d, top), v * PGSIZE + o, src)
  {
    var f := pgs[v];
    var mem' := mem[f := Data(Over(mem[f].bytes, o, src))];
    SpaceData(mem, d, tabs, pgs, f, mem'[f]);
    DataPtes(mem, d, tabs, pgs, f, mem'[f]);
    forall a: nat | a < top
      ensures VByte(mem', d, a) == if v * PGSIZE + o <= a < v * PGSIZE + o + |src| then src[a - v * PGSIZE - o]
              else VByte(mem, d, a)
    {
      SpacePte(mem, d, tabs, pgs, a / PGSIZE);
      SpacePte(mem', d, tabs, pgs, a / PGSIZE);
    }
  }

  lemma {:induction false} MemStays(mem: Mem, d: nat, tabs: Tabs, pgs: Tabs)
    requires Space(mem, d, tabs, pgs)
    ensures MemOk(mem) && IsTable(mem, d)
  {
  }

  lemma {:induction false} OverNothing(s: seq<Byte>, va: nat)
    requires va <= |s|
    ensures Over(s, va, []) == s
  {
  }

  lemma {:induction false} OverMore(s: seq<Byte>, va: nat, src: seq<Byte>, k: nat, n: nat)
    requires va + |src| <= |s| && k + n <= |src|
    ensures Over(Over(s, va, src[..k]), va + k, src[k..k + n]) == Over(s, va, src[..k + n])
  {
  }

  /** User code may touch all of these n addresses. */
  ghost predicate UserRange(mem: Mem, d: nat, va: nat, n: nat) {
    forall a: nat :: va <= a < va + n ==> UserOk(Pte(mem, d, a / PGSIZE))
  }

  /** There are page tables for all of these n addresses. */
  ghost predicate TableRange(mem: Mem, d: nat, va: nat, n: nat) {
    forall a: nat :: va <= a < va + n ==> Present(Pde(mem, d, a / PGSIZE))
  }

  lemma {:induction false} NoRange(mem: Mem, d: nat, va: nat)
    ensures UserRange(mem, d, va, 0) && TableRange(mem, d, va, 0)
  {
  }

  lemma {:induction false} NotUser(mem: Mem, d: nat, va: nat, n: nat, a: nat)
    requires va <= a < va + n && !UserOk(Pte(mem, d, a / PGSIZE))
    ensures !UserRange(mem, d, va, n)
    ensures !Present(Pde(mem, d, a / PGSIZE)) ==> !TableRange(mem, d, va, n)
  {
  }

  lemma {:induction false} SameNone(a: Mem, b: Mem, c: Mem, d: nat)
    requires SamePtes(a, b, d, -1) && SamePtes(b, c, d, -1)
    ensures SamePtes(a, c, d, -1)
  {
  }

  lemma {:induction false} SameUser(mem0: Mem, mem1: Mem, mem2: Mem, d: nat, va: nat, k: nat, n: nat, v: nat)
    requires SamePtes(mem0, mem1, d, -1) && SamePtes(mem1, mem2, d, -1) && v == (va + k) / PGSIZE
             && (va + k) % PGSIZE + n <= PGSIZE
    requires (n > 0 ==> UserOk(Pte(mem1, d, v))) && va + k + n <= USERPAGES * PGSIZE
    requires UserRange(mem1, d, va, k)
    ensures SamePtes(mem0, mem2, d, -1) && UserRange(mem2, d, va, k + n)
  {
    forall a: nat | va <= a < va + k + n
      ensures UserOk(Pte(mem2, d, a / PGSIZE))
    {
      assert a >= va + k ==> a / PGSIZE == v;
    }
  }

  lemma {:induction false} UserFlags(f: nat)
    requires f < 0x10_0000
    ensures UserOk(MakePte(f, PTE_W + PTE_U))
  {
    var pte := MakePte(f, PTE_W + PTE_U);
    var q := 1024 * f + 1;
    assert pte == q * 4 + 3;
    DivModUnique(pte, 4, q, 3);
    DivModUnique(q, 2, 512 * f, 1);
  }

  /** pte & ~PTE_U. */
  function Unflagged(pte: U32): U32 {
    if pte / PTE_U % 2 == 1 then pte - PTE_U else pte
  }

  lemma {:induction false} WithoutU(pte: U32)
    ensures !UserOk(Unflagged(pte)) && (Present(Unflagged(pte)) <==> Present(pte))
            && FrameOf(Unflagged(pte)) == FrameOf(pte)
  {
    if pte / PTE_U % 2 == 1 {
      var q, low := pte / PTE_U / 2, pte % PTE_U;
      assert pte == PTE_U * (2 * q + 1) + low;
      DivModUnique(pte - PTE_U, PTE_U, 2 * q, low);
      DivModUnique(pte, PGSIZE, pte / PGSIZE, pte % PGSIZE);
      FlagInside(pte);
      DivModUnique(pte - PTE_U, PGSIZE, pte / PGSIZE, pte % PGSIZE - PTE_U);
    }
  }

  lemma {:induction false} FlagInside(pte: U32)
    requires pte / PTE_U % 2 == 1
    ensures pte % PGSIZE >= PTE_U
  {
    var f, low := pte / PGSIZE, pte % PGSIZE;
    if low < PTE_U {
      DivModUnique(pte, PTE_U, 1024 * f, low);
      DivModUnique(1024 * f, 2, 512 * f, 0);
    }
  }

  /** Changing the flags of an entry moves nothing. */
  lemma {:induction false} SpaceReflag(mem: Mem, d: nat, tabs: Tabs, pgs: Tabs, v: nat, pte: U32)
    requires Space(mem, d, tabs, pgs) && v < USERPAGES && v / ENTRIES in tabs && IsTable(mem, tabs[v / ENTRIES])
    requires if v in pgs then Present(pte) && FrameOf(pte) == pgs[v] else !Present(pte)
    ensures Space(WithPte(mem, tabs[v / ENTRIES], v % ENTRIES, pte), d, tabs, pgs)
  {
    var t := tabs[v / ENTRIES];
    var mem' := WithPte(mem, t, v % ENTRIES, pte);
    assert PageAt(mem, d, tabs, pgs, v);
    forall j: nat
      ensures TabOk(mem', d, tabs, j)
    {
      assert TabOk(mem, d, tabs, j);
    }
    forall w: nat | w < USERPAGES
      ensures PageAt(mem', d, tabs, pgs, w)
    {
      assert PageAt(mem, d, tabs, pgs, w) && TabOk(mem, d, tabs, w / ENTRIES);
      SameEntry(v, w);
    }
  }
}
