/** The ring buffer and the blocking protocol of kernel/pipe.c. */
module Pipe {
  import opened Words

  const PIPESIZE := 512

  // ---- the ring, with 32-bit counters that wrap ----

  datatype Ring = Ring(data: seq<int>, nread: nat, nwrite: nat)

  /** How many bytes are in the pipe: the distance of the counters, modulo 2^32. */
  function Count(r: Ring): (n: nat)
    ensures n < W32
  {
    Wrap32(r.nwrite - r.nread)
  }

  ghost predicate RingOk(r: Ring) {
    |r.data| == PIPESIZE && r.nread < W32 && r.nwrite < W32 && Count(r) <= PIPESIZE
  }

  function At(r: Ring, j: nat): int
    requires |r.data| == PIPESIZE
  {
    r.data[(r.nread + j) % PIPESIZE]
  }

  /** The bytes in the pipe, oldest first. */
  function Contents(r: Ring): (s: seq<int>)
    requires |r.data| == PIPESIZE
    ensures |s| == Count(r) && forall j :: 0 <= j < |s| ==> s[j] == At(r, j)
  {
    seq(Count(r), j requires 0 <= j => At(r, j))
  }

  predicate Full(r: Ring) {
    r.nwrite == Wrap32(r.nread + PIPESIZE)
  }

  predicate Empty(r: Ring) {
    r.nread == r.nwrite
  }

  function Put(r: Ring, b: int): Ring
    requires |r.data| == PIPESIZE
  {
    Ring(r.data[r.nwrite % PIPESIZE := b], r.nread, Wrap32(r.nwrite + 1))
  }

  function Take(r: Ring): Ring {
    r.(nread := Wrap32(r.nread + 1))
  }

  lemma {:induction false} CountCases(r: Ring)
    requires RingOk(r)
    ensures Count(r) == if r.nwrite >= r.nread then r.nwrite - r.nread else r.nwrite + W32 - r.nread
  {
  }

  /** The two tests of the code mean what they say, whatever the counters have wrapped to. */
  lemma {:induction false} TestsAreExact(r: Ring)
    requires RingOk(r)
    ensures Full(r) <==> Count(r) == PIPESIZE
    ensures Empty(r) <==> Count(r) == 0
  {
    CountCases(r);
    assert Wrap32(r.nread + PIPESIZE) == if r.nread + PIPESIZE < W32 then r.nread + PIPESIZE
           else r.nread + PIPESIZE - W32;
  }

  /** The index computed from a wrapped counter is the index of the unwrapped one. */
  lemma {:induction false} IndexSurvivesWrap(n: nat)
    ensures Wrap32(n) % PIPESIZE == n % PIPESIZE
  {
    DivModFacts(n, W32);
    var q := n / W32;
    assert n == q * W32 + Wrap32(n);
    assert W32 == 8388608 * PIPESIZE;
    assert n == PIPESIZE * (q * 8388608) + Wrap32(n);
    AddMultiple(Wrap32(n), q * 8388608);
  }

  lemma {:induction false} AddMultiple(x: nat, k: nat)
    ensures (PIPESIZE * k + x) % PIPESIZE == x % PIPESIZE
  {
    DivModFacts(x, PIPESIZE);
    DivModUnique(PIPESIZE * k + x, PIPESIZE, k + x / PIPESIZE, x % PIPESIZE);
  }

  lemma {:induction false} CountAfter(r: Ring)
    requires RingOk(r)
    ensures Count(r) < PIPESIZE ==> Count(r.(nwrite := Wrap32(r.nwrite + 1))) == Count(r) + 1
    ensures Count(r) > 0 ==> Count(Take(r)) == Count(r) - 1
    ensures r.nwrite % PIPESIZE == (r.nread + Count(r)) % PIPESIZE
  {
    CountMoves(r);
    WrittenWraps(r);
    hide Count, Wrap32;
    IndexSurvivesWrap(r.nread + Count(r));
  }

  lemma {:induction false} CountMoves(r: Ring)
    requires RingOk(r)
    ensures Count(r) < PIPESIZE ==> Count(r.(nwrite := Wrap32(r.nwrite + 1))) == Count(r) + 1
    ensures Count(r) > 0 ==> Count(Take(r)) == Count(r) - 1
  {
    CountCases(r);
  }

  lemma {:induction false} WrittenWraps(r: Ring)
    requires RingOk(r)
    ensures r.nwrite == Wrap32(r.nread + Count(r))
  {
    CountCases(r);
  }

  /** Distinct positions of the pipe lie in distinct slots. */
  lemma {:induction false} SlotsDistinct(n: nat, i: nat, j: nat)
    requires i < j < i + PIPESIZE
    ensures (n + i) % PIPESIZE != (n + j) % PIPESIZE
  {
    DivModFacts(n + i, PIPESIZE);
    DivModFacts(n + j, PIPESIZE);
  }

  lemma {:induction false} PutAppends(r: Ring, b: int)
    requires RingOk(r) && !Full(r)
    ensures RingOk(Put(r, b)) && Contents(Put(r, b)) == Contents(r) + [b]
  {
    TestsAreExact(r);
    CountAfter(r);
    var r', n := Put(r, b), Count(r);
    assert Count(r') == Count(r.(nwrite := Wrap32(r.nwrite + 1)));
    forall j | 0 <= j < n
      ensures At(r', j) == At(r, j)
    {
      SlotsDistinct(r.nread, j, n);
    }
    assert At(r', n) == b;
  }

  lemma {:induction false} TakeRemoves(r: Ring)
    requires RingOk(r) && !Empty(r)
    ensures RingOk(Take(r)) && Count(r) > 0
    ensures r.data[r.nread % PIPESIZE] == Contents(r)[0] && Contents(Take(r)) == Contents(r)[1..]
  {
    TestsAreExact(r);
    CountAfter(r);
    var r' := Take(r);
    forall j | 0 <= j < Count(r')
      ensures At(r', j) == At(r, j + 1)
    {
      IndexSurvivesWrap(r.nread + 1 + j);
      IndexSurvivesWrap(r'.nread + j);
      SlotAfterWrap(r.nread, j);
    }
  }

  lemma {:induction false} Regroup(a: seq<int>, b: seq<int>)
    requires b != []
    ensures (a + [b[0]]) + b[1..] == a + b
  {
    assert b == [b[0]] + b[1..];
  }

  lemma {:induction false} Extend(a: seq<int>, b: seq<int>, i: nat, k: nat)
    requires i <= k < |b|
    ensures (a + b[i..k]) + [b[k]] == a + b[i..k + 1]
  {
    assert b[i..k + 1] == b[i..k] + [b[k]];
  }

  lemma {:induction false} SlotAfterWrap(n: nat, j: nat)
    ensures (Wrap32(n + 1) + j) % PIPESIZE == (n + 1 + j) % PIPESIZE
  {
    DivModFacts(n + 1, W32);
    var q := (n + 1) / W32;
    assert n + 1 == q * W32 + Wrap32(n + 1);
    assert n + 1 + j == PIPESIZE * (q * 8388608) + (Wrap32(n + 1) + j);
    AddMultiple(Wrap32(n + 1) + j, q * 8388608);
  }

  // ---- the loops of pipewrite and piperead between two lock operations ----

  /** How far a writer at position i of n bytes gets when count bytes are in the pipe. */
  function Stored(count: nat, n: nat, i: nat): (k: nat)
    requires count <= PIPESIZE && i <= n
    ensures i <= k <= n && count + k - i <= PIPESIZE
    ensures k < n ==> count + k - i == PIPESIZE
  {
    Min(n, i + PIPESIZE - count)
  }

  /** How many of count bytes a reader asking for n gets. */
  function Fetched(count: nat, n: int): nat {
    Min(count, Max(n, 0))
  }

  /** The ring in place: the data array and the two counters. */
  class Buffer {
    var data: array<int>
    var nread: U32
    var nwrite: U32

    ghost function Value(): Ring
      reads this, data
    {
      Ring(data[..], nread, nwrite)
    }

    ghost predicate Valid()
      reads this, data
    {
      RingOk(Value())
    }

    /** pipealloc (pipe.c:36-39). */
    constructor ()
      ensures Valid() && Contents(Value()) == [] && fresh(data)
    {
      data := new int[PIPESIZE];
      nread, nwrite := 0, 0;
      new;
      assert Count(Value()) == 0;
    }

    /** Store bytes from position i on, until all are stored or the pipe is full (pipe.c:96-108). */
    method Store(addr: seq<int>, i: nat) returns (k: nat)
      requires Valid() && i <= |addr|
      modifies data, this`nwrite
      ensures Valid() && nread == old(nread)
      ensures i <= k <= |addr| && Contents(Value()) == old(Contents(Value())) + addr[i..k]
      ensures k == Stored(|old(Contents(Value()))|, |addr|, i)
    {
      k := i;
      while k < |addr| && nwrite != Wrap32(nread + PIPESIZE)
        invariant Valid() && i <= k <= |addr| && nread == old(nread)
        invariant Contents(Value()) == old(Contents(Value())) + addr[i..k]
      {
        ghost var r := Value();
        PutAppends(r, addr[k]);
        Extend(old(Contents(Value())), addr, i, k);
        data[nwrite % PIPESIZE] := addr[k];
        nwrite := Wrap32(nwrite + 1);
        assert Value() == Put(r, addr[k]);
        k := k + 1;
      }
      TestsAreExact(Value());
    }

    /** Take up to n bytes out, until the pipe is empty (pipe.c:130-136). */
    method Fetch(n: int) returns (bytes: seq<int>)
      requires Valid()
      modifies this`nread
      ensures Valid() && nwrite == old(nwrite) && data[..] == old(data[..])
      ensures old(Contents(Value())) == bytes + Contents(Value())
      ensures |bytes| == Fetched(|old(Contents(Value()))|, n)
    {
      ghost var all := Contents(Value());
      hide Count, At, Contents, RingOk;
      bytes := [];
      while |bytes| < n && nread != nwrite
        invariant Valid() && |bytes| <= Max(n, 0) && |Value().data| == PIPESIZE
        invariant all == bytes + Contents(Value())
        decreases n - |bytes|
      {
        ghost var r := Value();
        TakeRemoves(r);
        Regroup(bytes, Contents(r));
        bytes := bytes + [data[nread % PIPESIZE]];
        nread := Wrap32(nread + 1);
        assert Value() == Take(r);
      }
      TestsAreExact(Value());
    }
  }
}

/** Any number of readers and writers of one pipe. Every access is made with the pipe's lock held, so
    a step is what one process does from taking the lock to releasing it or going to sleep; sleep
    gives up the lock and sleeps in one step, which is what the protocol of proc.c provides. */
module PipeProtocol {
  import opened Pipe

  /** W: in pipewrite at byte i of buf; R: in piperead; the awake ones are about to take the lock. */
  datatype Proc = Out | WIn(buf: seq<int>, i: nat) | WAsleep(buf: seq<int>, i: nat) | RIn(n: int) | RAsleep(n: int)

  /** accepted and delivered record all bytes ever stored and all ever handed to readers. */
  datatype State = State(buf: seq<int>, readopen: bool, writeopen: bool, procs: seq<Proc>,
                         accepted: seq<int>, delivered: seq<int>)

  datatype Action =
    | StartWrite(p: nat, bytes: seq<int>) | StartRead(p: nat, n: int)
    | Write(p: nat, killed: bool) | Read(p: nat, killed: bool)
    | Close(writable: bool) | Rouse(p: nat)

  function WokenReader(q: Proc): Proc {
    if q.RAsleep? then RIn(q.n) else q
  }

  function WokenWriter(q: Proc): Proc {
    if q.WAsleep? then WIn(q.buf, q.i) else q
  }

  /** wakeup(&p->nread). */
  function WakeReaders(ps: seq<Proc>): (r: seq<Proc>)
    ensures |r| == |ps| && forall j :: 0 <= j < |ps| ==> r[j] == WokenReader(ps[j])
  {
    seq(|ps|, j requires 0 <= j < |ps| => WokenReader(ps[j]))
  }

  /** wakeup(&p->nwrite). */
  function WakeWriters(ps: seq<Proc>): (r: seq<Proc>)
    ensures |r| == |ps| && forall j :: 0 <= j < |ps| ==> r[j] == WokenWriter(ps[j])
  {
    seq(|ps|, j requires 0 <= j < |ps| => WokenWriter(ps[j]))
  }

  predicate Enabled(s: State, a: Action) {
    && |s.buf| <= PIPESIZE
    && match a
       case StartWrite(p, bytes) => p < |s.procs| && s.procs[p].Out?
       case StartRead(p, n) => p < |s.procs| && s.procs[p].Out?
       case Write(p, _) => p < |s.procs| && s.procs[p].WIn? && s.procs[p].i <= |s.procs[p].buf|
       case Read(p, _) => p < |s.procs| && s.procs[p].RIn?
       case Close(_) => true
       case Rouse(p) => p < |s.procs|
  }

  function Apply(s: State, a: Action): (t: State)
    requires Enabled(s, a)
    ensures |t.procs| == |s.procs|
  {
    match a
    case StartWrite(p, bytes) => s.(procs := s.procs[p := WIn(bytes, 0)])
    case StartRead(p, n) => s.(procs := s.procs[p := RIn(n)])
    case Write(p, killed) => WriteStep(s, p, killed)
    case Read(p, killed) => ReadStep(s, p, killed)
    case Close(writable) => // pipeclose (pipe.c:73-79)
      if writable then s.(writeopen := false, procs := WakeReaders(s.procs))
      else s.(readopen := false, procs := WakeWriters(s.procs))
    case Rouse(p) => s.(procs := s.procs[p := WokenReader(WokenWriter(s.procs[p]))]) // kill
  }

  /** pipewrite (pipe.c:96-112): store; then return, give up or sleep. */
  function WriteStep(s: State, p: nat, killed: bool): (t: State)
    requires Enabled(s, Write(p, killed))
    ensures |t.procs| == |s.procs|
  {
    var q := s.procs[p];
    var k := Stored(|s.buf|, |q.buf|, q.i);
    var t := s.(buf := s.buf + q.buf[q.i..k], accepted := s.accepted + q.buf[q.i..k]);
    if k == |q.buf| then t.(procs := WakeReaders(s.procs)[p := Out])
    else if !s.readopen || killed then t.(procs := s.procs[p := Out])
    else t.(procs := WakeReaders(s.procs)[p := WAsleep(q.buf, k)])
  }

  /** piperead (pipe.c:121-140). */
  function ReadStep(s: State, p: nat, killed: bool): (t: State)
    requires Enabled(s, Read(p, killed))
    ensures |t.procs| == |s.procs|
  {
    if s.buf == [] && s.writeopen then s.(procs := s.procs[p := if killed then Out else RAsleep(s.procs[p].n)])
    else
      var k := Fetched(|s.buf|, s.procs[p].n);
      s.(buf := s.buf[k..], delivered := s.delivered + s.buf[..k], procs := WakeWriters(s.procs)[p := Out])
  }

  ghost predicate Init(s: State) {
    && s.buf == [] && s.accepted == [] && s.delivered == [] && s.readopen && s.writeopen
    && forall p :: 0 <= p < |s.procs| ==> s.procs[p] == Out
  }

  /** The states a sequence of actions goes through. */
  ghost predicate Run(tr: seq<State>, acts: seq<Action>) {
    && |tr| == |acts| + 1 && Init(tr[0])
    && forall i :: 0 <= i < |acts| ==> Step(tr[i], acts[i], tr[i + 1])
  }

  ghost predicate Step(s: State, a: Action, t: State) {
    Enabled(s, a) && t == Apply(s, a)
  }

  // ---- no byte lost, duplicated or reordered; no writer asleep in vain ----

  ghost predicate ProcOk(s: State, q: Proc) {
    && (q.WIn? || q.WAsleep? ==> q.i <= |q.buf|)
    && (q.WAsleep? ==> |s.buf| == PIPESIZE && s.readopen)
  }

  ghost predicate Inv(s: State) {
    && |s.buf| <= PIPESIZE && s.accepted == s.delivered + s.buf
    && forall p :: 0 <= p < |s.procs| ==> ProcOk(s, s.procs[p])
  }

  lemma {:induction false} StepProc(s: State, a: Action, r: nat)
    requires Inv(s) && Enabled(s, a) && r < |s.procs|
    ensures ProcOk(Apply(s, a), Apply(s, a).procs[r])
  {
    assert ProcOk(s, s.procs[r]);
    if a.Read? && s.procs[r].WAsleep? {
      assert s.buf != [];
    }
  }

  lemma {:induction false} StepBytes(s: State, a: Action)
    requires |s.buf| <= PIPESIZE && s.accepted == s.delivered + s.buf && Enabled(s, a)
    requires a.Write? ==> ProcOk(s, s.procs[a.p])
    ensures var t := Apply(s, a); |t.buf| <= PIPESIZE && t.accepted == t.delivered + t.buf
  {
    hide WriteStep, ReadStep;
    match a
    case Write(p, killed) => WriteBytes(s, p, killed);
    case Read(p, killed) => ReadBytes(s, p, killed);
    case _ =>
  }

  lemma {:induction false} WriteBytes(s: State, p: nat, killed: bool)
    requires |s.buf| <= PIPESIZE && s.accepted == s.delivered + s.buf && Enabled(s, Write(p, killed))
    requires ProcOk(s, s.procs[p])
    ensures var t := WriteStep(s, p, killed); |t.buf| <= PIPESIZE && t.accepted == t.delivered + t.buf
  {
  }

  lemma {:induction false} ReadBytes(s: State, p: nat, killed: bool)
    requires |s.buf| <= PIPESIZE && s.accepted == s.delivered + s.buf && Enabled(s, Read(p, killed))
    ensures var t := ReadStep(s, p, killed); |t.buf| <= PIPESIZE && t.accepted == t.delivered + t.buf
  {
    hide Fetched, WakeWriters;
    if !(s.buf == [] && s.writeopen) {
      FetchedFits(|s.buf|, s.procs[p].n);
      CutAfter(s.delivered, s.buf, Fetched(|s.buf|, s.procs[p].n));
    }
  }

  lemma {:induction false} FetchedFits(count: nat, n: int)
    ensures Fetched(count, n) <= count
  {
  }

  lemma {:induction false} CutAfter(s: seq<int>, t: seq<int>, k: nat)
    requires k <= |t|
    ensures s + t == (s + t[..k]) + t[k..]
  {
    assert t == t[..k] + t[k..];
  }

  lemma {:induction false} StepInv(s: State, a: Action)
    requires Inv(s) && Enabled(s, a)
    ensures Inv(Apply(s, a))
  {
    hide Apply, ProcOk;
    var t := Apply(s, a);
    StepBytes(s, a);
    forall r | 0 <= r < |t.procs|
      ensures ProcOk(t, t.procs[r])
    {
      StepProc(s, a, r);
    }
  }

  lemma {:induction false} RunInv(tr: seq<State>, acts: seq<Action>, i: nat)
    requires Run(tr, acts) && i < |tr|
    ensures Inv(tr[i])
  {
    if i > 0 {
      RunInv(tr, acts, i - 1);
      assert Step(tr[i - 1], acts[i - 1], tr[i - 1 + 1]);
      hide Inv;
      StepInv(tr[i - 1], acts[i - 1]);
    }
  }

  /** In every run, what readers got is a prefix of what writers stored, and what is missing is
      exactly what the pipe holds. */
  lemma {:induction false} DeliveredIsPrefix(tr: seq<State>, acts: seq<Action>, i: nat)
    requires Run(tr, acts) && i < |tr|
    ensures tr[i].delivered <= tr[i].accepted && tr[i].accepted == tr[i].delivered + tr[i].buf
            && |tr[i].buf| <= PIPESIZE
  {
    RunInv(tr, acts, i);
  }

  /** In every run, a sleeping writer faces a full pipe whose read end is open. */
  lemma {:induction false} NoWriterSleepsInVain(tr: seq<State>, acts: seq<Action>, i: nat, p: nat)
    requires Run(tr, acts) && i < |tr| && p < |tr[i].procs| && tr[i].procs[p].WAsleep?
    ensures |tr[i].buf| == PIPESIZE && tr[i].readopen
  {
    RunInv(tr, acts, i);
    assert ProcOk(tr[i], tr[i].procs[p]);
  }

  /** A read that asked for bytes and got none is the end of file: the write end is closed and
      everything stored has been delivered. */
  lemma {:induction false} EmptyReadIsEndOfFile(tr: seq<State>, acts: seq<Action>, i: nat)
    requires Run(tr, acts) && i < |acts| && acts[i].Read? && acts[i].p < |tr[i].procs| && tr[i].procs[acts[i].p].RIn?
    requires tr[i].procs[acts[i].p].n > 0 && !acts[i].killed
    ensures var s, t, p := tr[i], tr[i + 1], acts[i].p;
            p < |t.procs|
            && (t.procs[p] == Out && t.delivered == s.delivered <==> !s.writeopen && s.delivered == s.accepted)
  {
    RunInv(tr, acts, i);
    var s, t, p := tr[i], tr[i + 1], acts[i].p;
    assert Step(s, acts[i], t);
    if s.buf != [] {
      var k := Fetched(|s.buf|, s.procs[p].n);
      assert |t.delivered| == |s.delivered| + k > |s.delivered|;
    }
    assert s.delivered == s.accepted <==> s.buf == [];
  }

  // ---- readers: true but for writers that give up ----

  ghost predicate ReaderAsleep(s: State) {
    exists p :: 0 <= p < |s.procs| && s.procs[p].RAsleep?
  }

  /** No reader sleeps while there is something to read or the write end is closed. */
  ghost predicate ReadersOk(s: State) {
    ReaderAsleep(s) ==> s.buf == [] && s.writeopen
  }

  /** A writer that finds the pipe full and gives up (pipe.c:98-101) after storing bytes that it has
      not announced. */
  ghost predicate GivesUp(s: State, a: Action)
    requires Enabled(s, a)
  {
    && a.Write? && (a.killed || !s.readopen)
    && var q := s.procs[a.p]; q.i < Stored(|s.buf|, |q.buf|, q.i) < |q.buf|
  }

  /** Exactly the steps that leave a reader asleep in front of data. */
  lemma {:induction false} ReadersStep(s: State, a: Action)
    requires Inv(s) && ReadersOk(s) && Enabled(s, a)
    ensures ReadersOk(Apply(s, a)) <==> !(GivesUp(s, a) && ReaderAsleep(s))
  {
    var t := Apply(s, a);
    if GivesUp(s, a) && ReaderAsleep(s) {
      var p :| 0 <= p < |s.procs| && s.procs[p].RAsleep?;
      assert t.procs[p].RAsleep?;
    } else if ReaderAsleep(t) {
      var p :| 0 <= p < |t.procs| && t.procs[p].RAsleep?;
      assert s.procs[p].RAsleep? || (a.Read? && a.p == p);
    }
  }

  /** In every run in which no writer gives up that way, no reader sleeps in vain, and hence readers
      and writers are never asleep together. */
  lemma {:induction false} NoReaderSleepsInVain(tr: seq<State>, acts: seq<Action>, i: nat)
    requires Run(tr, acts) && i < |tr|
    requires forall j :: 0 <= j < i ==> Enabled(tr[j], acts[j]) && !GivesUp(tr[j], acts[j])
    ensures ReadersOk(tr[i])
    ensures ReaderAsleep(tr[i]) ==> forall p :: 0 <= p < |tr[i].procs| ==> !tr[i].procs[p].WAsleep?
  {
    RunInv(tr, acts, i);
    forall p | 0 <= p < |tr[i].procs| && tr[i].procs[p].WAsleep?
      ensures |tr[i].buf| == PIPESIZE
    {
      assert ProcOk(tr[i], tr[i].procs[p]);
    }
    if i > 0 {
      NoReaderSleepsInVain(tr, acts, i - 1);
      RunInv(tr, acts, i - 1);
      assert Step(tr[i - 1], acts[i - 1], tr[i - 1 + 1]);
      assert !GivesUp(tr[i - 1], acts[i - 1]);
      hide Inv, ReadersOk, GivesUp, ReaderAsleep;
      ReadersStep(tr[i - 1], acts[i - 1]);
    }
  }

  /** The hypothesis is needed: a reader waits, a writer fills the pipe and is killed. */
  lemma {:induction false} KilledWriterStrandsReader(bytes: seq<int>, n: int)
    returns (tr: seq<State>, acts: seq<Action>)
    requires |bytes| > PIPESIZE
    ensures Run(tr, acts) && |acts| == 4
    ensures var s := tr[4]; ReaderAsleep(s) && s.buf == bytes[..PIPESIZE] && !ReadersOk(s)
  {
    var s0 := State([], true, true, [Out, Out], [], []);
    acts := [StartRead(0, n), Read(0, false), StartWrite(1, bytes), Write(1, true)];
    var s1 := Apply(s0, acts[0]);
    var s2 := Apply(s1, acts[1]);
    var s3 := Apply(s2, acts[2]);
    assert s3.procs == [RAsleep(n), WIn(bytes, 0)];
    var s4 := Apply(s3, acts[3]);
    assert s4.procs[0] == RAsleep(n);
    tr := [s0, s1, s2, s3, s4];
    forall i | 0 <= i < |acts|
      ensures Step(tr[i], acts[i], tr[i + 1])
    {
      assert i == 0 || i == 1 || i == 2 || i == 3;
    }
  }
}
