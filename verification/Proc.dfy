/** The process table of kernel/proc.c: the fields that ptable.lock protects, and the loops over
    them, written as the source's loops and proved against functions on the table. */
module ProcTable {
  datatype ProcState = Unused | Embryo | Sleeping | Runnable | Running | Zombie

  /** What a process sleeps on: the address of a lock-protected object, or of a process. */
  datatype Chan = NoChan | OnLock(l: nat) | OnProc(p: int)

  const NONE := -1

  /** Where a timer interrupt can make a process yield (trap.c:115-119): the places outside all locks. */
  datatype Spot = InUser | InSleep(l: nat) | InFork3(np: int) | InFork4(np: int) | InFork5(np: int) | InFork6(np: int)

  /** Where a process is in the kernel. The names group by the function being executed; l is the
      lock of a critical section, np the process that fork is building. */
  datatype Pc =
    | User                                      // outside these functions, no lock held
    | Crit(l: nat)                              // holds lock l
    | Slp1(l: nat) | Slp2(l: nat) | Slp3(l: nat) // sleep: wants ptable.lock; holds both; let go of l
    | SlpOff(l: nat) | SlpOn(l: nat)            // sleep: about to call sched; back from sched
    | SlpDone(l: nat) | SlpRe(l: nat)           // sleep: tidied up; wants l again
    | Post1(l: nat) | Post2(l: nat) | Post3(l: nat) // condition set: wants ptable.lock; holds both; woke all
    | Wake1(chan: Chan)                         // wakeup
    | Yld1(at: Spot) | YldOff(at: Spot) | YldOn(at: Spot) // yield: wants to; about to call sched; back from sched
    | Kill1(pid: int)                           // kill
    | Fork1 | Fork2(np: int) | Fork3(np: int) | Fork4(np: int) | Fork5(np: int) | Fork6(np: int)
    | Exit1 | ExitOff                           // exit
    | Wait1 | WaitOff | WaitOn                  // wait
    | Fresh                                     // forkret, at the first scheduling
    | Done                                      // holds ptable.lock, about to release it

  datatype Proc = Proc(state: ProcState, chan: Chan, parent: int, killed: bool, pid: int,
                       kstack: bool, pgdir: bool, saved: bool, pc: Pc)

  // ---- wakeup1 (proc.c:404-412) ----

  function Woken(q: Proc, chan: Chan): Proc {
    if q.state == Sleeping && q.chan == chan then q.(state := Runnable) else q
  }

  function WakeupAll(ps: seq<Proc>, chan: Chan): (r: seq<Proc>)
    ensures |r| == |ps| && forall i :: 0 <= i < |ps| ==> r[i] == Woken(ps[i], chan)
  {
    seq(|ps|, i requires 0 <= i < |ps| => Woken(ps[i], chan))
  }

  // ---- the three searches ----

  function FirstUnused(ps: seq<Proc>): (i: nat)
    ensures i <= |ps| && (i < |ps| ==> ps[i].state == Unused)
    ensures forall j :: 0 <= j < i ==> ps[j].state != Unused
  {
    if |ps| == 0 || ps[0].state == Unused then 0 else 1 + FirstUnused(ps[1..])
  }

  function FirstPid(ps: seq<Proc>, pid: int): (i: nat)
    ensures i <= |ps| && (i < |ps| ==> ps[i].pid == pid)
    ensures forall j :: 0 <= j < i ==> ps[j].pid != pid
  {
    if |ps| == 0 || ps[0].pid == pid then 0 else 1 + FirstPid(ps[1..], pid)
  }

  predicate ZombieChild(q: Proc, parent: int) {
    q.parent == parent && q.state == Zombie
  }

  function FirstZombie(ps: seq<Proc>, parent: int): (i: nat)
    ensures i <= |ps| && (i < |ps| ==> ZombieChild(ps[i], parent))
    ensures forall j :: 0 <= j < i ==> !ZombieChild(ps[j], parent)
  {
    if |ps| == 0 || ZombieChild(ps[0], parent) then 0 else 1 + FirstZombie(ps[1..], parent)
  }

  predicate HasChild(ps: seq<Proc>, parent: int) {
    exists i :: 0 <= i < |ps| && ps[i].parent == parent
  }

  // ---- kill (proc.c:426-447) ----

  function Killed(ps: seq<Proc>, pid: int): (r: seq<Proc>)
    ensures |r| == |ps|
  {
    var i := FirstPid(ps, pid);
    if i == |ps| then ps
    else ps[i := ps[i].(killed := true, state := if ps[i].state == Sleeping then Runnable else ps[i].state)]
  }

  /** kill marks the first process with the pid, wakes it if it sleeps, and touches no other. */
  lemma {:induction false} KilledAt(ps: seq<Proc>, pid: int, r: int)
    requires 0 <= r < |ps|
    ensures var q, q' := ps[r], Killed(ps, pid)[r];
            if q.pid == pid && forall j :: 0 <= j < r ==> ps[j].pid != pid then
              q' == q.(killed := true, state := if q.state == Sleeping then Runnable else q.state)
            else q' == q
  {
    var i := FirstPid(ps, pid);
    assert r == i ==> forall j :: 0 <= j < r ==> ps[j].pid != pid;
  }

  // ---- exit (proc.c:199-213) ----

  predicate LeavesZombie(ps: seq<Proc>, p: int) {
    exists i :: 0 <= i < |ps| && ZombieChild(ps[i], p)
  }

  /** What becomes of process q when p exits: it moves to init if p was its parent, and wakes up if
      it is init and inherits a zombie. */
  function PassedOn(q: Proc, p: int, init: int, wake: bool): Proc {
    var q1 := if q.parent == p then q.(parent := init) else q;
    if wake then Woken(q1, OnProc(init)) else q1
  }

  function Orphaned(ps: seq<Proc>, p: int, init: int): (r: seq<Proc>)
    ensures |r| == |ps| && forall i :: 0 <= i < |ps| ==> r[i] == PassedOn(ps[i], p, init, LeavesZombie(ps, p))
  {
    seq(|ps|, i requires 0 <= i < |ps| => PassedOn(ps[i], p, init, LeavesZombie(ps, p)))
  }

  /** exit from the first wakeup to the state change. */
  function Exited(ps: seq<Proc>, p: nat, init: int): (r: seq<Proc>)
    requires p < |ps|
    ensures |r| == |ps|
  {
    var woken := WakeupAll(ps, OnProc(ps[p].parent));
    var passed := Orphaned(woken, p, init);
    passed[p := passed[p].(state := Zombie)]
  }

  /** Waking processes makes no zombie and moves no child. */
  lemma {:induction false} WakingLeaves(ps: seq<Proc>, chan: Chan, p: int)
    ensures LeavesZombie(WakeupAll(ps, chan), p) <==> LeavesZombie(ps, p)
  {
    var woken := WakeupAll(ps, chan);
    forall i | 0 <= i < |ps|
      ensures ZombieChild(woken[i], p) <==> ZombieChild(ps[i], p)
    {
      assert woken[i] == Woken(ps[i], chan);
    }
    if LeavesZombie(ps, p) {
      var i :| 0 <= i < |ps| && ZombieChild(ps[i], p);
      assert ZombieChild(woken[i], p);
    }
  }

  /** Whom the exit of p wakes: its parent in wait, and init in wait when p leaves it a zombie. */
  predicate WokenByExit(ps: seq<Proc>, p: nat, init: int, q: Proc)
    requires p < |ps|
  {
    && q.state == Sleeping
    && (q.chan == OnProc(ps[p].parent) || (q.chan == OnProc(init) && LeavesZombie(ps, p)))
  }

  lemma {:induction false} ExitedAt(ps: seq<Proc>, p: nat, init: int, r: int)
    requires p < |ps| && 0 <= r < |ps|
    ensures var q, q' := ps[r], Exited(ps, p, init)[r];
            q' == q.(parent := if q.parent == p then init else q.parent,
                     state := if r == p then Zombie else if WokenByExit(ps, p, init, q) then Runnable else q.state)
  {
    hide LeavesZombie;
    var up := OnProc(ps[p].parent);
    var woken := WakeupAll(ps, up);
    WakingLeaves(ps, up, p);
    assert woken[r] == Woken(ps[r], up);
    assert Orphaned(woken, p, init)[r] == PassedOn(woken[r], p, init, LeavesZombie(ps, p));
  }

  // ---- wait's reaping of a zombie (proc.c:240-248) ----

  function Reaped(q: Proc): Proc {
    q.(kstack := false, pgdir := false, state := Unused, pid := 0, parent := NONE, killed := false)
  }

  class Table {
    var procs: seq<Proc>
    var nextpid: int

    constructor (ps: seq<Proc>, next: int)
      ensures procs == ps && nextpid == next
    {
      procs, nextpid := ps, next;
    }

    method Wakeup1(chan: Chan)
      modifies this`procs
      ensures procs == WakeupAll(old(procs), chan)
    {
      var i := 0;
      while i < |procs|
        invariant 0 <= i <= |procs| == |old(procs)|
        invariant forall j :: 0 <= j < |procs| ==>
                    procs[j] == if j < i then Woken(old(procs)[j], chan) else old(procs)[j]
      {
        if procs[i].state == Sleeping && procs[i].chan == chan {
          procs := procs[i := procs[i].(state := Runnable)];
        }
        i := i + 1;
      }
    }

    method Kill(pid: int) returns (r: int)
      modifies this`procs
      ensures procs == Killed(old(procs), pid)
      ensures r == 0 <==> exists i :: 0 <= i < |old(procs)| && old(procs)[i].pid == pid
      ensures r == 0 || r == -1
    {
      var i := 0;
      while i < |procs|
        invariant 0 <= i <= |procs| && procs == old(procs)
        invariant forall j :: 0 <= j < i ==> procs[j].pid != pid
      {
        if procs[i].pid == pid {
          procs := procs[i := procs[i].(killed := true)];
          if procs[i].state == Sleeping {
            procs := procs[i := procs[i].(state := Runnable)];
          }
          return 0;
        }
        i := i + 1;
      }
      return -1;
    }

    /** The search and claim of allocproc (proc.c:40-50). */
    method Alloc() returns (np: int)
      modifies this
      ensures np == NONE <==> FirstUnused(old(procs)) == |old(procs)|
      ensures np == NONE ==> procs == old(procs) && nextpid == old(nextpid)
      ensures np != NONE ==> np == FirstUnused(old(procs)) && nextpid == old(nextpid) + 1
      ensures np != NONE ==> procs == old(procs)[np := old(procs)[np].(state := Embryo, pid := old(nextpid))]
    {
      var i := 0;
      while i < |procs|
        invariant 0 <= i <= |procs| && procs == old(procs) && nextpid == old(nextpid)
        invariant forall j :: 0 <= j < i ==> procs[j].state != Unused
      {
        if procs[i].state == Unused {
          procs := procs[i := procs[i].(state := Embryo)];
          procs := procs[i := procs[i].(pid := nextpid)];
          nextpid := nextpid + 1;
          return i;
        }
        i := i + 1;
      }
      return NONE;
    }

    /** exit's part under the lock (proc.c:199-213). */
    method Exit(p: nat, init: int)
      requires p < |procs| && init != p
      modifies this`procs
      ensures procs == Exited(old(procs), p, init)
    {
      hide LeavesZombie;
      Wakeup1(OnProc(procs[p].parent));
      ghost var woken := procs;
      ghost var seen := false;
      assert !LeavesZombie(woken[..0], p) by {
        NoZombies(p);
      }
      var i := 0;
      while i < |procs|
        invariant 0 <= i <= |procs| == |woken|
        invariant seen <==> LeavesZombie(woken[..i], p)
        invariant forall j :: 0 <= j < i ==> procs[j] == PassedOn(woken[j], p, init, seen)
        invariant forall j :: i <= j < |procs| ==> procs[j] == if seen then Woken(woken[j], OnProc(init)) else woken[j]
      {
        assert woken[..i + 1] == woken[..i] + [woken[i]];
        LeavesZombieStep(woken[..i], woken[i], p);
        if procs[i].parent == p {
          procs := procs[i := procs[i].(parent := init)];
          if procs[i].state == Zombie {
            seen := true;
            Wakeup1(OnProc(init));
          }
        }
        i := i + 1;
      }
      assert woken[..i] == woken;
      assert procs == Orphaned(woken, p, init);
      procs := procs[p := procs[p].(state := Zombie)];
    }

    /** wait's scan (proc.c:229-252): reap the first zombie child, or say whether there are children. */
    method WaitScan(p: int) returns (pid: int, found: bool, havekids: bool)
      modifies this`procs
      ensures found <==> FirstZombie(old(procs), p) < |old(procs)|
      ensures found ==> var z := FirstZombie(old(procs), p);
                        pid == old(procs)[z].pid && procs == old(procs)[z := Reaped(old(procs)[z])]
      ensures !found ==> procs == old(procs) && (havekids <==> HasChild(procs, p))
    {
      pid, found, havekids := 0, false, false;
      var i := 0;
      while i < |procs|
        invariant 0 <= i <= |procs| && procs == old(procs) && !found
        invariant forall j :: 0 <= j < i ==> !ZombieChild(procs[j], p)
        invariant havekids <==> exists j :: 0 <= j < i && procs[j].parent == p
      {
        if procs[i].parent == p {
          havekids := true;
          if procs[i].state == Zombie {
            pid := procs[i].pid;
            procs := procs[i := procs[i].(kstack := false)];
            procs := procs[i := procs[i].(pgdir := false)];
            procs := procs[i := procs[i].(state := Unused)];
            procs := procs[i := procs[i].(pid := 0)];
            procs := procs[i := procs[i].(parent := NONE)];
            procs := procs[i := procs[i].(killed := false)];
            found := true;
            return;
          }
        }
        i := i + 1;
      }
    }
  }

  lemma {:induction false} NoZombies(p: int)
    ensures !LeavesZombie([], p)
  {
  }

  lemma {:induction false} LeavesZombieStep(ps: seq<Proc>, q: Proc, p: int)
    ensures LeavesZombie(ps + [q], p) <==> LeavesZombie(ps, p) || ZombieChild(q, p)
  {
    var all := ps + [q];
    if LeavesZombie(ps, p) {
      var i :| 0 <= i < |ps| && ZombieChild(ps[i], p);
      assert ZombieChild(all[i], p);
    }
    if ZombieChild(q, p) {
      assert ZombieChild(all[|ps|], p);
    }
  }
}

/** The protocol of kernel/proc.c and kernel/spinlock.c as a step machine over any number of CPUs,
    processes and locks. A step is a lock operation, a context switch, or straight-line code whose
    shared accesses one held lock protects. */
module SchedProtocol {
  import opened ProcTable

  /** What a CPU's scheduler thread is doing; InProc means it has switched to process cur. */
  datatype Mode = Idle | Scan | Picked | InProc | Back | Intr | IntrDone

  /** cur is the per-CPU variable proc; stack and cr3 name the process whose kernel stack and page
      table the CPU is using (NONE: the scheduler's own stack, the kernel's page table). */
  datatype Cpu = Cpu(mode: Mode, cur: int, stack: int, cr3: int, ncli: nat, intena: bool, intr: bool)

  /** pt and lk[l] name the CPU holding ptable.lock and lock l; cond[l] is the condition that lock l
      protects and that processes sleeping on OnLock(l) wait for. */
  datatype State = State(procs: seq<Proc>, cpus: seq<Cpu>, pt: int, lk: seq<int>, cond: seq<bool>,
                         init: nat, nextpid: int)

  // ---- spinlock.c ----

  /** pushcli (spinlock.c:100-109). */
  function PushCli(c: Cpu): Cpu {
    c.(intr := false, ncli := c.ncli + 1, intena := if c.ncli == 0 then c.intr else c.intena)
  }

  /** popcli (spinlock.c:112-124), where it does not panic. */
  function PopCli(c: Cpu): Cpu
    requires c.ncli > 0
  {
    c.(ncli := c.ncli - 1, intr := c.intr || (c.ncli == 1 && c.intena))
  }

  predicate IsCpu(s: State, c: int) {
    0 <= c < |s.cpus|
  }

  predicate IsProc(s: State, p: int) {
    0 <= p < |s.procs|
  }

  predicate IsLock(s: State, l: int) {
    0 <= l < |s.lk| && l < |s.cond|
  }

  function TakePt(s: State, c: int): State
    requires IsCpu(s, c)
  {
    s.(pt := c, cpus := s.cpus[c := PushCli(s.cpus[c])])
  }

  function DropPt(s: State, c: int): State
    requires IsCpu(s, c) && s.cpus[c].ncli > 0
  {
    s.(pt := NONE, cpus := s.cpus[c := PopCli(s.cpus[c])])
  }

  function TakeLk(s: State, c: int, l: int): State
    requires IsCpu(s, c) && IsLock(s, l)
  {
    s.(lk := s.lk[l := c], cpus := s.cpus[c := PushCli(s.cpus[c])])
  }

  function DropLk(s: State, c: int, l: int): State
    requires IsCpu(s, c) && IsLock(s, l) && s.cpus[c].ncli > 0
  {
    s.(lk := s.lk[l := NONE], cpus := s.cpus[c := PopCli(s.cpus[c])])
  }

  // ---- what each place in the code holds ----

  predicate HoldsPt(pc: Pc) {
    match pc
    case Slp2(_) => true case Slp3(_) => true case SlpOff(_) => true case SlpOn(_) => true case SlpDone(_) => true
    case Post2(_) => true case Post3(_) => true case Wake1(_) => true case Yld1(_) => true case YldOff(_) => true
    case YldOn(_) => true
    case Kill1(_) => true case Fork1 => true case Fork2(_) => true case Exit1 => true case ExitOff => true
    case Wait1 => true case WaitOff => true case WaitOn => true case Fresh => true case Done => true
    case _ => false
  }

  function LockOf(pc: Pc): int {
    match pc
    case Crit(l) => l case Slp1(l) => l case Slp2(l) => l
    case Post1(l) => l case Post2(l) => l case Post3(l) => l
    case _ => NONE
  }

  /** About to call sched. */
  predicate Off(pc: Pc) {
    pc.SlpOff? || pc.YldOff? || pc.ExitOff? || pc.WaitOff?
  }

  /** Where a process that is not running continues when it is scheduled. */
  predicate Resumable(pc: Pc) {
    pc.SlpOn? || pc.YldOn? || pc.WaitOn? || pc.Fresh?
  }

  function StateAt(pc: Pc): ProcState {
    match pc
    case SlpOff(_) => Sleeping case WaitOff => Sleeping
    case YldOff(_) => Runnable
    case ExitOff => Zombie
    case _ => Running
  }

  function OnPc(pc: Pc): Pc {
    match pc
    case SlpOff(l) => SlpOn(l) case YldOff(k) => YldOn(k) case WaitOff => WaitOn case _ => pc
  }

  predicate CpuHoldsPt(s: State, c: int)
    requires IsCpu(s, c)
  {
    match s.cpus[c].mode
    case Idle => false
    case InProc => IsProc(s, s.cpus[c].cur) && HoldsPt(s.procs[s.cpus[c].cur].pc)
    case _ => true
  }

  function CpuLock(s: State, c: int): int
    requires IsCpu(s, c)
  {
    if s.cpus[c].mode == InProc && IsProc(s, s.cpus[c].cur) then LockOf(s.procs[s.cpus[c].cur].pc) else NONE
  }

  // ---- steps ----

  datatype Action =
    | SchedAcquire | SchedPick(p: int) | SchedSwitch | SchedReturn | SchedRelease
    | IntrAcquire | IntrWake(chan: Chan) | IntrRelease
    | AcquirePt(to: Pc) | ReleasePt | AcquireLock(l: nat) | ReleaseLock
    | WaitFor | Claim | Post
    | GoSleep | GoYield | WakeAll | DoWakeup | DoKill
    | ForkAlloc | ForkStack(ok: bool) | ForkCopy(ok: bool) | ForkParent | ForkReady
    | DoExit | WaitReap | WaitNone | WaitSleep
    | Swtch | Resume

  /** The functions that start by taking ptable.lock. exit is not for init (proc.c:181). */
  predicate Entry(s: State, p: int, to: Pc) {
    || to.Kill1? || to.Fork1? || to.Wait1? || to.Wake1?
    || (to.Exit1? && p != s.init)
  }

  function PcOf(k: Spot): Pc {
    match k
    case InUser => User
    case InSleep(l) => SlpRe(l)
    case InFork3(np) => Fork3(np) case InFork4(np) => Fork4(np)
    case InFork5(np) => Fork5(np) case InFork6(np) => Fork6(np)
  }

  /** Where a process is, looking through a yield. */
  function Stage(pc: Pc): Pc {
    if pc.Yld1? || pc.YldOff? || pc.YldOn? then PcOf(pc.at) else pc
  }

  /** Where a process goes on after releasing ptable.lock. */
  function AfterRelease(pc: Pc): Pc {
    match pc
    case SlpDone(l) => SlpRe(l)
    case Post3(l) => Crit(l)
    case Fork2(np) => Fork3(np)
    case YldOn(k) => PcOf(k)
    case _ => User
  }

  predicate CanRelease(pc: Pc) {
    pc.Done? || pc.Fresh? || pc.SlpDone? || pc.Post3? || pc.Fork2? || pc.YldOn?
  }

  predicate SchedAction(a: Action) {
    a.SchedAcquire? || a.SchedPick? || a.SchedSwitch? || a.SchedReturn? || a.SchedRelease?
    || a.IntrAcquire? || a.IntrWake? || a.IntrRelease?
  }

  /** When CPU c can take step a. A lock is taken only when it is free: that is the xchg loop. */
  predicate Enabled(s: State, c: int, a: Action) {
    && IsCpu(s, c)
    && if SchedAction(a) then
         var cpu := s.cpus[c];
         match a
         case SchedAcquire => cpu.mode == Idle && s.pt == NONE
         case SchedPick(p) => cpu.mode == Scan && IsProc(s, p) && s.procs[p].state == Runnable
         case SchedSwitch => cpu.mode == Picked && IsProc(s, cpu.cur)
         case SchedReturn => cpu.mode == Back
         case SchedRelease => cpu.mode == Scan && cpu.ncli > 0
         case IntrAcquire => cpu.mode == Idle && cpu.intr && s.pt == NONE
         case IntrWake(_) => cpu.mode == Intr
         case IntrRelease => cpu.mode == IntrDone && cpu.ncli > 0
         case _ => false
       else s.cpus[c].mode == InProc && IsProc(s, s.cpus[c].cur) && ThreadEnabled(s, c, s.cpus[c].cur, a)
  }

  predicate ThreadEnabled(s: State, c: int, p: int, a: Action)
    requires IsCpu(s, c) && IsProc(s, p)
  {
    var q := s.procs[p];
    var ncli := s.cpus[c].ncli;
    match a
    case AcquirePt(to) =>
      && s.pt == NONE
      && (|| (q.pc.User? && Entry(s, p, to)) || (to.Yld1? && q.pc == PcOf(to.at))
          || (q.pc.Slp1? && to == Slp2(q.pc.l)) || (q.pc.Post1? && to == Post2(q.pc.l)))
    case ReleasePt => CanRelease(q.pc) && ncli > 0
    case AcquireLock(l) => IsLock(s, l) && s.lk[l] == NONE && (q.pc.User? || q.pc == SlpRe(l))
    case ReleaseLock => (q.pc.Crit? || q.pc.Slp2?) && IsLock(s, q.pc.l) && ncli > 0
    case WaitFor => q.pc.Crit? && IsLock(s, q.pc.l) && !s.cond[q.pc.l]
    case Claim => q.pc.Crit? && IsLock(s, q.pc.l) && s.cond[q.pc.l]
    case Post => q.pc.Crit? && IsLock(s, q.pc.l)
    case GoSleep => q.pc.Slp3?
    case GoYield => q.pc.Yld1?
    case WakeAll => q.pc.Post2?
    case DoWakeup => q.pc.Wake1?
    case DoKill => q.pc.Kill1?
    case ForkAlloc => q.pc.Fork1?
    case ForkStack(_) => q.pc.Fork3? && IsProc(s, q.pc.np)
    case ForkCopy(_) => q.pc.Fork4? && IsProc(s, q.pc.np)
    case ForkParent => q.pc.Fork5? && IsProc(s, q.pc.np)
    case ForkReady => q.pc.Fork6? && IsProc(s, q.pc.np)
    case DoExit => q.pc.Exit1?
    case WaitReap => q.pc.Wait1? && FirstZombie(s.procs, p) < |s.procs|
    case WaitNone => q.pc.Wait1? && FirstZombie(s.procs, p) == |s.procs| && (!HasChild(s.procs, p) || q.killed)
    case WaitSleep => q.pc.Wait1? && FirstZombie(s.procs, p) == |s.procs| && HasChild(s.procs, p) && !q.killed
    case Swtch => Off(q.pc)
    case Resume => q.pc.SlpOn? || q.pc.WaitOn?
    case _ => false
  }

  function SetPc(s: State, p: int, pc: Pc): State
    requires IsProc(s, p)
  {
    s.(procs := s.procs[p := s.procs[p].(pc := pc)])
  }

  function Apply(s: State, c: int, a: Action): (t: State)
    requires Enabled(s, c, a)
    ensures |t.procs| == |s.procs| && |t.cpus| == |s.cpus| && |t.lk| == |s.lk| && |t.cond| == |s.cond|
            && t.init == s.init
  {
    if SchedAction(a) then SchedApply(s, c, a) else ThreadApply(s, c, s.cpus[c].cur, a)
  }

  /** The scheduler's loop (proc.c:277-305), and an interrupt handler calling wakeup on an idle CPU. */
  function SchedApply(s: State, c: int, a: Action): (t: State)
    requires Enabled(s, c, a) && SchedAction(a)
    ensures |t.procs| == |s.procs| && |t.cpus| == |s.cpus| && |t.lk| == |s.lk| && |t.cond| == |s.cond|
            && t.init == s.init
  {
    var cpu := s.cpus[c];
    match a
    case SchedAcquire => // sti; acquire
      var on := s.(cpus := s.cpus[c := cpu.(mode := Scan, intr := true)]);
      TakePt(on, c)
    case SchedPick(p) => // proc = p; switchuvm(p); p->state = RUNNING
      s.(cpus := s.cpus[c := cpu.(mode := Picked, cur := p, cr3 := p)],
         procs := s.procs[p := s.procs[p].(state := Running)])
    case SchedSwitch => // swtch; a process that was in sched puts its intena back
      var q := s.procs[cpu.cur];
      s.(cpus := s.cpus[c := cpu.(mode := InProc, stack := cpu.cur,
                                  intena := if q.pc.Fresh? then cpu.intena else q.saved)])
    case SchedReturn => // switchkvm; proc = 0
      s.(cpus := s.cpus[c := cpu.(mode := Scan, cr3 := NONE, cur := NONE)])
    case SchedRelease =>
      DropPt(s.(cpus := s.cpus[c := cpu.(mode := Idle)]), c)
    case IntrAcquire =>
      TakePt(s.(cpus := s.cpus[c := cpu.(mode := Intr)]), c)
    case IntrWake(chan) =>
      s.(cpus := s.cpus[c := cpu.(mode := IntrDone)], procs := WakeupAll(s.procs, chan))
    case IntrRelease =>
      DropPt(s.(cpus := s.cpus[c := cpu.(mode := Idle)]), c)
  }

  /** A step of process p, running on CPU c. */
  function ThreadApply(s: State, c: int, p: int, a: Action): (t: State)
    requires IsCpu(s, c) && IsProc(s, p) && ThreadEnabled(s, c, p, a)
    ensures |t.procs| == |s.procs| && |t.cpus| == |s.cpus| && |t.lk| == |s.lk| && |t.cond| == |s.cond|
            && t.init == s.init
  {
    if LockAction(a) then LockApply(s, c, p, a)
    else if OwnAction(a) then s.(procs := s.procs[p := OwnProc(s, c, p, a)], cond := OwnCond(s, c, p, a))
    else if ForkAction(a) then ForkApply(s, c, p, a)
    else if a.Swtch? then // sched: intena saved, swtch to the scheduler
      var q := s.procs[p];
      s.(procs := s.procs[p := q.(saved := s.cpus[c].intena, pc := OnPc(q.pc))],
         cpus := s.cpus[c := s.cpus[c].(mode := Back, stack := NONE)])
    else SetPc(s.(procs := TableAfter(s, c, p, a)), p, TablePc(s, c, p, a))
  }

  predicate LockAction(a: Action) {
    a.AcquirePt? || a.ReleasePt? || a.AcquireLock? || a.ReleaseLock?
  }

  function LockApply(s: State, c: int, p: int, a: Action): State
    requires IsCpu(s, c) && IsProc(s, p) && ThreadEnabled(s, c, p, a) && LockAction(a)
  {
    var pc := s.procs[p].pc;
    match a
    case AcquirePt(to) => SetPc(TakePt(s, c), p, to)
    case ReleasePt => SetPc(DropPt(s, c), p, AfterRelease(pc))
    case AcquireLock(l) => SetPc(TakeLk(s, c, l), p, Crit(l))
    case ReleaseLock => SetPc(DropLk(s, c, pc.l), p, if pc.Crit? then User else Slp3(pc.l))
  }

  /** Steps that change only the process's own entry, or the condition its lock protects. */
  predicate OwnAction(a: Action) {
    || a.WaitFor? || a.Claim? || a.Post? || a.GoSleep? || a.GoYield? || a.WaitNone? || a.WaitSleep? || a.Resume?
  }

  function OwnProc(s: State, c: int, p: int, a: Action): Proc
    requires IsProc(s, p) && OwnAction(a) && IsCpu(s, c) && ThreadEnabled(s, c, p, a)
  {
    var q := s.procs[p];
    match a
    case WaitFor => q.(pc := Slp1(q.pc.l))
    case Claim => q
    case Post => q.(pc := Post1(q.pc.l))
    case GoSleep => q.(chan := OnLock(q.pc.l), state := Sleeping, pc := SlpOff(q.pc.l))
    case GoYield => q.(state := Runnable, pc := YldOff(q.pc.at))
    case WaitNone => q.(pc := Done)
    case WaitSleep => q.(chan := OnProc(p), state := Sleeping, pc := WaitOff)
    case Resume => q.(chan := NoChan, pc := if q.pc.SlpOn? then SlpDone(q.pc.l) else Wait1) // after sched
  }

  function OwnCond(s: State, c: int, p: int, a: Action): seq<bool>
    requires IsProc(s, p) && OwnAction(a) && IsCpu(s, c) && ThreadEnabled(s, c, p, a)
  {
    match a
    case Claim => s.cond[s.procs[p].pc.l := false]
    case Post => s.cond[s.procs[p].pc.l := true]
    case _ => s.cond
  }

  /** Steps that work on the whole table under ptable.lock. */
  predicate TableAction(a: Action) {
    a.WakeAll? || a.DoWakeup? || a.DoKill? || a.DoExit? || a.WaitReap?
  }

  function TableAfter(s: State, c: int, p: int, a: Action): (r: seq<Proc>)
    requires IsProc(s, p) && TableAction(a) && IsCpu(s, c) && ThreadEnabled(s, c, p, a)
    ensures |r| == |s.procs|
  {
    var pc := s.procs[p].pc;
    match a
    case WakeAll => WakeupAll(s.procs, OnLock(pc.l))
    case DoWakeup => WakeupAll(s.procs, pc.chan)
    case DoKill => Killed(s.procs, pc.pid)
    case DoExit => Exited(s.procs, p, s.init)
    case WaitReap =>
      var z := FirstZombie(s.procs, p);
      s.procs[z := Reaped(s.procs[z])]
  }

  function TablePc(s: State, c: int, p: int, a: Action): Pc
    requires IsProc(s, p) && TableAction(a) && IsCpu(s, c) && ThreadEnabled(s, c, p, a)
  {
    match a
    case WakeAll => Post3(s.procs[p].pc.l)
    case DoExit => ExitOff
    case _ => Done
  }

  predicate ForkAction(a: Action) {
    a.ForkAlloc? || a.ForkStack? || a.ForkCopy? || a.ForkParent? || a.ForkReady?
  }

  /** fork and allocproc (proc.c:34-76, proc.c:136-171); the failure branches give the slot back. */
  function ForkApply(s: State, c: int, p: int, a: Action): State
    requires IsProc(s, p) && ForkAction(a) && IsCpu(s, c) && ThreadEnabled(s, c, p, a)
  {
    if a.ForkAlloc? then
      var np := FirstUnused(s.procs);
      if np == |s.procs| then SetPc(s, p, Done)
      else SetPc(s.(procs := s.procs[np := s.procs[np].(state := Embryo, pid := s.nextpid)], nextpid := s.nextpid + 1),
                 p, Fork2(np))
    else
      var np := s.procs[p].pc.np;
      SetPc(s.(procs := s.procs[np := ForkChild(s.procs[np], p, a)]), p, ForkPc(np, a))
  }

  function ForkChild(q: Proc, p: int, a: Action): Proc
    requires ForkAction(a) && !a.ForkAlloc?
  {
    match a
    case ForkStack(ok) => if ok then q.(kstack := true, pc := Fresh) else q.(state := Unused)
    case ForkCopy(ok) => if ok then q.(pgdir := true) else q.(kstack := false, state := Unused)
    case ForkParent => q.(parent := p)
    case ForkReady => q.(state := Runnable)
  }

  function ForkPc(np: int, a: Action): Pc
    requires ForkAction(a) && !a.ForkAlloc?
  {
    match a
    case ForkStack(ok) => if ok then Fork4(np) else User
    case ForkCopy(ok) => if ok then Fork5(np) else User
    case ForkParent => Fork6(np)
    case ForkReady => User
  }

  /** Start (userinit, proc.c:81-107): one runnable process, idle CPUs, free locks. */
  ghost predicate Init(s: State) {
    && IsProc(s, s.init) && |s.lk| == |s.cond| && s.pt == NONE
    && (forall p :: IsProc(s, p) && p != s.init ==>
          s.procs[p] == Proc(Unused, NoChan, NONE, false, 0, false, false, false, Fresh))
    && (var q := s.procs[s.init];
        q.state == Runnable && q.chan == NoChan && q.parent == NONE && q.kstack && q.pgdir && q.pc == Fresh)
    && (forall c :: IsCpu(s, c) ==> s.cpus[c].mode == Idle && s.cpus[c].cur == NONE && s.cpus[c].stack == NONE
                                    && s.cpus[c].cr3 == NONE && s.cpus[c].ncli == 0)
    && (forall l :: 0 <= l < |s.lk| ==> s.lk[l] == NONE)
  }

  ghost predicate Next(s: State, t: State) {
    exists c, a :: Enabled(s, c, a) && t == Apply(s, c, a)
  }

  ghost predicate Run(tr: seq<State>) {
    && |tr| > 0 && Init(tr[0])
    && forall i :: 0 <= i < |tr| - 1 ==> Next(tr[i], tr[i + 1])
  }

  // ---- the invariant: CPUs and processes agree ----
  // on[p] is the CPU that has p as its current process, or NONE.

  ghost predicate Live(st: ProcState) {
    st != Unused && st != Embryo
  }

  ghost predicate ChanOk(q: Proc, p: int) {
    || (q.pc.SlpOff? && q.chan == OnLock(q.pc.l)) || (q.pc.SlpOn? && q.chan == OnLock(q.pc.l))
    || ((q.pc.WaitOff? || q.pc.WaitOn?) && q.chan == OnProc(p))
  }

  /** A process that no CPU is executing. */
  ghost predicate Parked(q: Proc, p: int) {
    && q.state != Running
    && (q.state == Runnable ==> Resumable(q.pc))
    && (q.state == Sleeping ==> Resumable(q.pc) && ChanOk(q, p))
    && (q.state == Zombie || !Live(q.state) ==> q.pc.ExitOff? || q.pc.Fresh?)
  }

  ghost predicate Backed(q: Proc) {
    Live(q.state) ==> q.kstack && q.pgdir
  }

  ghost predicate ProcOk(s: State, on: seq<int>, p: int)
    requires IsProc(s, p) && |on| == |s.procs|
  {
    var q := s.procs[p];
    && Backed(q)
    && if on[p] == NONE then Parked(q, p)
       else
         && IsCpu(s, on[p]) && s.cpus[on[p]].cur == p && Live(q.state)
         && match s.cpus[on[p]].mode
            case Picked => q.state == Running && Resumable(q.pc)
            case InProc => q.state == StateAt(q.pc) && (q.state == Sleeping ==> ChanOk(q, p))
            case Back => Parked(q, p)
            case _ => false
  }

  function Depth(s: State, c: int): nat
    requires IsCpu(s, c)
  {
    (if CpuHoldsPt(s, c) then 1 else 0) + (if CpuLock(s, c) != NONE then 1 else 0)
  }

  ghost predicate CpuOk(s: State, on: seq<int>, c: int)
    requires IsCpu(s, c) && |on| == |s.procs|
  {
    var cpu := s.cpus[c];
    && (match cpu.mode
        case Picked => IsProc(s, cpu.cur) && on[cpu.cur] == c && cpu.stack == NONE && cpu.cr3 == cpu.cur
        case InProc => IsProc(s, cpu.cur) && on[cpu.cur] == c && cpu.stack == cpu.cur && cpu.cr3 == cpu.cur
        case Back => IsProc(s, cpu.cur) && on[cpu.cur] == c && cpu.stack == NONE && cpu.cr3 == cpu.cur
        case _ => cpu.cur == NONE && cpu.stack == NONE && cpu.cr3 == NONE)
    && (s.pt == c <==> CpuHoldsPt(s, c))
    && (CpuLock(s, c) != NONE ==> IsLock(s, CpuLock(s, c)) && s.lk[CpuLock(s, c)] == c)
    && cpu.ncli == Depth(s, c) && (cpu.intr ==> cpu.ncli == 0)
  }

  ghost predicate LockOk(s: State, l: int)
    requires IsLock(s, l)
  {
    s.lk[l] != NONE ==> IsCpu(s, s.lk[l]) && CpuLock(s, s.lk[l]) == l
  }

  ghost predicate Shape(s: State, on: seq<int>) {
    && |on| == |s.procs| && |s.lk| == |s.cond|
    && (s.pt == NONE || IsCpu(s, s.pt))
    && (forall c :: IsCpu(s, c) ==> CpuOk(s, on, c))
    && (forall p :: IsProc(s, p) ==> ProcOk(s, on, p))
    && (forall l :: IsLock(s, l) ==> LockOk(s, l))
  }

  /** Equal but for parent, pid, killed and the saved intena. */
  ghost predicate Alike(q: Proc, r: Proc) {
    q.state == r.state && q.chan == r.chan && q.kstack == r.kstack && q.pgdir == r.pgdir && q.pc == r.pc
  }

  /** The general step of process p on CPU c, seen from everywhere else: only its own entries, its own
      locks and processes that no CPU has may change. */
  ghost predicate Elsewhere(s: State, t: State, on: seq<int>, c: int, p: int)
    requires |on| == |s.procs|
  {
    && |t.procs| == |s.procs| && |t.cpus| == |s.cpus| && |t.lk| == |s.lk| && |t.cond| == |s.cond|
    && IsCpu(s, c) && IsProc(s, p)
    && (t.pt == s.pt || (s.pt == NONE && t.pt == c) || (s.pt == c && t.pt == NONE))
    && (forall l :: IsLock(s, l) ==>
          t.lk[l] == s.lk[l] || (s.lk[l] == NONE && t.lk[l] == c) || (s.lk[l] == c && t.lk[l] == NONE))
    && (forall d :: IsCpu(s, d) && d != c ==> t.cpus[d] == s.cpus[d])
    && (forall r :: IsProc(s, r) && r != p ==>
          Alike(t.procs[r], s.procs[r]) || (on[r] == NONE && Parked(t.procs[r], r) && Backed(t.procs[r])))
  }

  lemma {:induction false} ShapeFrame(s: State, t: State, on: seq<int>, c: int, p: int)
    requires Shape(s, on) && Elsewhere(s, t, on, c, p) && s.cpus[c].mode == InProc && s.cpus[c].cur == p
    requires t.cpus[c].mode == InProc && t.cpus[c].cur == p
    requires CpuOk(t, on, c) && ProcOk(t, on, p)
    requires forall l :: IsLock(s, l) && t.lk[l] == c ==> CpuLock(t, c) == l
    ensures Shape(t, on)
  {
    assert CpuOk(s, on, c);
    forall d | IsCpu(t, d) && d != c
      ensures CpuOk(t, on, d)
    {
      assert CpuOk(s, on, d);
      assert IsProc(s, s.cpus[d].cur) ==> s.cpus[d].cur != p;
      assert CpuHoldsPt(t, d) == CpuHoldsPt(s, d) && CpuLock(t, d) == CpuLock(s, d);
    }
    forall r | IsProc(t, r) && r != p
      ensures ProcOk(t, on, r)
    {
      assert ProcOk(s, on, r);
    }
    forall l | IsLock(t, l)
      ensures LockOk(t, l)
    {
      assert LockOk(s, l);
      if t.lk[l] != NONE && t.lk[l] != c {
        assert CpuOk(s, on, t.lk[l]);
      }
    }
  }

  /** A step that takes and drops no lock: what the new entries must satisfy. */
  lemma {:induction false} ShapeUpdate(s: State, t: State, on: seq<int>, c: int)
    requires Shape(s, on) && IsCpu(s, c) && s.cpus[c].mode == InProc
    requires t == s.(procs := t.procs, cond := t.cond, nextpid := t.nextpid)
    requires |t.procs| == |s.procs| && |t.cond| == |s.cond|
    requires var p := s.cpus[c].cur;
             && IsProc(s, p)
             && HoldsPt(t.procs[p].pc) == HoldsPt(s.procs[p].pc) && LockOf(t.procs[p].pc) == LockOf(s.procs[p].pc)
             && t.procs[p].state == StateAt(t.procs[p].pc) && Backed(t.procs[p])
             && (t.procs[p].state == Sleeping ==> ChanOk(t.procs[p], p))
    requires forall r :: IsProc(s, r) && r != s.cpus[c].cur ==>
               Alike(t.procs[r], s.procs[r]) || (on[r] == NONE && Parked(t.procs[r], r) && Backed(t.procs[r]))
    ensures Shape(t, on)
  {
    var p := s.cpus[c].cur;
    assert CpuOk(s, on, c) && ProcOk(s, on, p);
    hide Parked, Backed, ChanOk, StateAt, HoldsPt, LockOf;
    forall l | IsLock(s, l)
      ensures t.lk[l] == c ==> CpuLock(t, c) == l
    {
      assert LockOk(s, l);
    }
    ShapeFrame(s, t, on, c, p);
  }

  lemma {:induction false} OwnProcOk(s: State, c: int, p: int, a: Action)
    requires IsCpu(s, c) && IsProc(s, p) && ThreadEnabled(s, c, p, a) && OwnAction(a)
    requires s.procs[p].state == StateAt(s.procs[p].pc) && Backed(s.procs[p])
    ensures var q, q' := s.procs[p], OwnProc(s, c, p, a);
            && HoldsPt(q'.pc) == HoldsPt(q.pc) && LockOf(q'.pc) == LockOf(q.pc)
            && q'.state == StateAt(q'.pc) && (q'.state == Sleeping ==> ChanOk(q', p)) && Backed(q')
    ensures |OwnCond(s, c, p, a)| == |s.cond|
  {
    hide FirstZombie, HasChild, OnPc, AfterRelease;
  }

  /** The running process of CPU c, and where it stands. */
  lemma {:induction false} Executing(s: State, on: seq<int>, c: int)
    requires Shape(s, on) && IsCpu(s, c) && s.cpus[c].mode == InProc
    ensures var p := s.cpus[c].cur;
            && |on| == |s.procs| && IsProc(s, p) && on[p] == c && ProcOk(s, on, p) && CpuOk(s, on, c)
            && s.procs[p].state == StateAt(s.procs[p].pc) && Live(s.procs[p].state) && Backed(s.procs[p])
            && (s.pt == c <==> HoldsPt(s.procs[p].pc))
  {
    hide HoldsPt, LockOf, StateAt, ChanOk, Parked, Resumable;
    assert CpuOk(s, on, c);
    assert ProcOk(s, on, s.cpus[c].cur);
  }

  lemma {:induction false} ShapeOwnStep(s: State, on: seq<int>, c: int, p: int, a: Action)
    requires Shape(s, on) && IsCpu(s, c) && s.cpus[c].mode == InProc && s.cpus[c].cur == p && IsProc(s, p)
    requires ThreadEnabled(s, c, p, a) && OwnAction(a)
    ensures Shape(ThreadApply(s, c, p, a), on)
  {
    hide ThreadEnabled, OwnProc, OwnCond, HoldsPt, LockOf, StateAt, ChanOk, Backed, ForkApply, LockApply, TableAfter,
         TablePc, Shape;
    Executing(s, on, c);
    OwnProcOk(s, c, p, a);
    ShapeUpdate(s, ThreadApply(s, c, p, a), on, c);
  }

  /** Taking or dropping a lock moves the process between places that differ in just that lock. */
  lemma {:induction false} ShapeLockStep(s: State, on: seq<int>, c: int, p: int, a: Action)
    requires Shape(s, on) && IsCpu(s, c) && s.cpus[c].mode == InProc && s.cpus[c].cur == p && IsProc(s, p)
    requires ThreadEnabled(s, c, p, a) && LockAction(a)
    ensures Shape(ThreadApply(s, c, p, a), on)
  {
    var t := ThreadApply(s, c, p, a);
    LockMoves(s, c, p, a);
    hide ThreadEnabled, ForkApply, OwnProc, OwnCond, TableAfter, TablePc, HoldsPt, LockOf, StateAt, ChanOk, Parked,
         AfterRelease;
    Executing(s, on, c);
    forall l | IsLock(s, l)
      ensures t.lk[l] == c ==> CpuLock(t, c) == l
    {
      assert LockOk(s, l);
    }
    hide Shape;
    assert CpuOk(t, on, c);
    ShapeFrame(s, t, on, c, p);
  }

  lemma {:induction false} LockMoves(s: State, c: int, p: int, a: Action)
    requires IsCpu(s, c) && IsProc(s, p) && ThreadEnabled(s, c, p, a) && LockAction(a)
    ensures var pc, to := s.procs[p].pc, ThreadApply(s, c, p, a).procs[p].pc;
            && StateAt(pc) == StateAt(to) == ProcState.Running
            && (a.AcquirePt? ==> !HoldsPt(pc) && HoldsPt(to) && LockOf(to) == LockOf(pc))
            && (a.ReleasePt? ==> HoldsPt(pc) && !HoldsPt(to) && LockOf(to) == LockOf(pc))
            && (a.AcquireLock? ==> HoldsPt(pc) == HoldsPt(to) && LockOf(pc) == NONE && LockOf(to) == a.l)
            && (a.ReleaseLock? ==> HoldsPt(pc) == HoldsPt(to) && LockOf(pc) == pc.l && LockOf(to) == NONE)
  {
  }

  /** Whoever is not running while CPU c holds ptable.lock is on no CPU, unless it is c's own process. */
  lemma {:induction false} NotRunningParked(s: State, on: seq<int>, c: int, r: int)
    requires Shape(s, on) && IsCpu(s, c) && s.pt == c && IsProc(s, r) && on[r] != c
    requires s.procs[r].state != Running
    ensures on[r] == NONE
  {
    assert ProcOk(s, on, r);
    forall d | IsCpu(s, d)
      ensures CpuHoldsPt(s, d) ==> d == c
    {
      assert CpuOk(s, on, d);
    }
  }

  /** What a step on the whole table does to another process. */
  lemma {:induction false} TableEffect(s: State, c: int, p: int, a: Action, r: int)
    requires IsCpu(s, c) && IsProc(s, p) && ThreadEnabled(s, c, p, a) && TableAction(a) && IsProc(s, r) && r != p
    ensures var q, q' := s.procs[r], TableAfter(s, c, p, a)[r];
            || Alike(q', q)
            || (q.state == Sleeping && Alike(q', q.(state := Runnable)))
            || (a.WaitReap? && q.state == Zombie && q' == Reaped(q))
    ensures !a.DoExit? && !a.WaitReap? ==> TableAfter(s, c, p, a)[r].parent == s.procs[r].parent
  {
    if a.DoKill? {
      KilledAt(s.procs, s.procs[p].pc.pid, r);
    } else if a.DoExit? {
      ExitedAt(s.procs, p, s.init, r);
    } else if a.WaitReap? {
      assert ZombieChild(s.procs[FirstZombie(s.procs, p)], p);
    }
    hide Killed, Exited, FirstZombie, ThreadEnabled;
  }

  ghost predicate OwnTableOk(q: Proc, q': Proc, a: Action) {
    && HoldsPt(q.pc) && HoldsPt(q'.pc) && LockOf(q'.pc) == LockOf(q.pc)
    && q'.state == StateAt(q'.pc) && q'.state != Sleeping && Backed(q')
    && q.state == ProcState.Running && (!a.DoExit? ==> q'.state == ProcState.Running && q'.parent == q.parent)
    && !Stage(q.pc).Fork6? && Building(q'.pc) == NONE
  }

  lemma {:induction false} TableOwnWake(s: State, c: int, p: int, a: Action)
    requires IsCpu(s, c) && IsProc(s, p) && ThreadEnabled(s, c, p, a) && (a.WakeAll? || a.DoWakeup?)
    requires s.procs[p].state == StateAt(s.procs[p].pc) && Backed(s.procs[p])
    ensures OwnTableOk(s.procs[p], TableAfter(s, c, p, a)[p].(pc := TablePc(s, c, p, a)), a)
  {
  }

  lemma {:induction false} TableOwnKill(s: State, c: int, p: int)
    requires IsCpu(s, c) && IsProc(s, p) && ThreadEnabled(s, c, p, DoKill)
    requires s.procs[p].state == StateAt(s.procs[p].pc) && Backed(s.procs[p])
    ensures OwnTableOk(s.procs[p], TableAfter(s, c, p, DoKill)[p].(pc := TablePc(s, c, p, DoKill)), DoKill)
  {
    KilledAt(s.procs, s.procs[p].pc.pid, p);
    hide Killed;
  }

  lemma {:induction false} TableOwnExit(s: State, c: int, p: int)
    requires IsCpu(s, c) && IsProc(s, p) && ThreadEnabled(s, c, p, DoExit)
    requires s.procs[p].state == StateAt(s.procs[p].pc) && Backed(s.procs[p])
    ensures OwnTableOk(s.procs[p], TableAfter(s, c, p, DoExit)[p].(pc := TablePc(s, c, p, DoExit)), DoExit)
  {
    ExitedAt(s.procs, p, s.init, p);
    hide Exited;
  }

  lemma {:induction false} TableOwnReap(s: State, c: int, p: int)
    requires IsCpu(s, c) && IsProc(s, p) && ThreadEnabled(s, c, p, WaitReap)
    requires s.procs[p].state == StateAt(s.procs[p].pc) && Backed(s.procs[p])
    ensures OwnTableOk(s.procs[p], TableAfter(s, c, p, WaitReap)[p].(pc := TablePc(s, c, p, WaitReap)), WaitReap)
  {
    assert ZombieChild(s.procs[FirstZombie(s.procs, p)], p);
    hide FirstZombie;
  }

  lemma {:induction false} TableOwn(s: State, c: int, p: int, a: Action)
    requires IsCpu(s, c) && IsProc(s, p) && ThreadEnabled(s, c, p, a) && TableAction(a)
    requires s.procs[p].state == StateAt(s.procs[p].pc) && Backed(s.procs[p])
    ensures OwnTableOk(s.procs[p], TableAfter(s, c, p, a)[p].(pc := TablePc(s, c, p, a)), a)
  {
    hide ThreadEnabled, TableAfter, TablePc, OwnTableOk, StateAt, Backed;
    if a.DoKill? {
      TableOwnKill(s, c, p);
    } else if a.DoExit? {
      TableOwnExit(s, c, p);
    } else if a.WaitReap? {
      TableOwnReap(s, c, p);
    } else {
      TableOwnWake(s, c, p, a);
    }
  }

  lemma {:induction false} ShapeTableStep(s: State, on: seq<int>, c: int, p: int, a: Action)
    requires Shape(s, on) && IsCpu(s, c) && s.cpus[c].mode == InProc && s.cpus[c].cur == p && IsProc(s, p)
    requires ThreadEnabled(s, c, p, a) && TableAction(a)
    ensures Shape(ThreadApply(s, c, p, a), on)
  {
    hide ThreadEnabled, OwnProc, OwnCond, HoldsPt, LockOf, StateAt, ForkApply, LockApply, TableAfter, TablePc, Shape,
         ProcOk, CpuOk, Alike, Parked, Backed, ChanOk;
    var t := ThreadApply(s, c, p, a);
    assert t == s.(procs := TableAfter(s, c, p, a)[p := TableAfter(s, c, p, a)[p].(pc := TablePc(s, c, p, a))]);
    Executing(s, on, c);
    TableOwn(s, c, p, a);
    forall r | IsProc(s, r) && r != p
      ensures Alike(t.procs[r], s.procs[r]) || (on[r] == NONE && Parked(t.procs[r], r) && Backed(t.procs[r]))
    {
      TableOthers(s, on, c, p, a, r);
    }
    ShapeUpdate(s, t, on, c);
  }

  lemma {:induction false} TableOthers(s: State, on: seq<int>, c: int, p: int, a: Action, r: int)
    requires Shape(s, on) && IsCpu(s, c) && s.pt == c && s.cpus[c].cur == p && IsProc(s, p) && IsProc(s, r) && r != p
    requires ThreadEnabled(s, c, p, a) && TableAction(a)
    ensures var q, q' := s.procs[r], TableAfter(s, c, p, a)[r];
            Alike(q', q) || (on[r] == NONE && Parked(q', r) && Backed(q'))
  {
    hide ThreadEnabled, HoldsPt, LockOf, StateAt, TableAfter, Shape;
    TableEffect(s, c, p, a, r);
    Others(s, on, c, r);
  }

  lemma {:induction false} Others(s: State, on: seq<int>, c: int, r: int)
    requires Shape(s, on) && IsCpu(s, c) && s.pt == c && IsProc(s, r) && r != s.cpus[c].cur
    ensures ProcOk(s, on, r)
    ensures s.procs[r].state != Running ==> on[r] == NONE
  {
    hide HoldsPt, LockOf, ChanOk, Resumable;
    assert ProcOk(s, on, r);
    if s.procs[r].state != Running {
      NotRunningParked(s, on, c, r);
    }
  }

  // ---- the invariant: the process that fork is building ----

  function Builds(at: Pc): int {
    match at
    case Fork2(np) => np case Fork3(np) => np case Fork4(np) => np case Fork5(np) => np case Fork6(np) => np
    case _ => NONE
  }

  function Building(pc: Pc): int {
    Builds(Stage(pc))
  }

  ghost predicate EmbryoOk(s: State, t: int)
    requires IsProc(s, t)
  {
    var pc := Stage(s.procs[t].pc);
    Builds(pc) != NONE ==>
      && IsProc(s, Builds(pc)) && Builds(pc) != t
      && var q := s.procs[Builds(pc)];
         && q.state == Embryo && q.parent == (if pc.Fork6? then t else NONE)
         && (pc.Fork4? || pc.Fork5? || pc.Fork6? ==> q.kstack && q.pc == Fresh)
         && (pc.Fork5? || pc.Fork6? ==> q.pgdir)
  }

  ghost predicate OneBuilder(s: State, t: int, u: int)
    requires IsProc(s, t) && IsProc(s, u)
  {
    t != u && Building(s.procs[t].pc) != NONE ==> Building(s.procs[t].pc) != Building(s.procs[u].pc)
  }

  /** An embryo with a parent is in that parent's hands. */
  ghost predicate InHands(s: State, r: int)
    requires IsProc(s, r)
  {
    var up := s.procs[r].parent;
    s.procs[r].state == Embryo && up != NONE ==> IsProc(s, up) && Stage(s.procs[up].pc) == Fork6(r)
  }

  ghost predicate Embryos(s: State) {
    && (forall t :: IsProc(s, t) ==> EmbryoOk(s, t))
    && (forall r :: IsProc(s, r) ==> InHands(s, r))
    && (forall t, u :: IsProc(s, t) && IsProc(s, u) ==> OneBuilder(s, t, u))
  }

  /** A slot being built is on no CPU. */
  lemma {:induction false} EmbryoParked(s: State, on: seq<int>, np: int)
    requires Shape(s, on) && IsProc(s, np) && (s.procs[np].state == Embryo || s.procs[np].state == Unused)
    ensures on[np] == NONE && (s.procs[np].pc.ExitOff? || s.procs[np].pc.Fresh?)
  {
    hide HoldsPt, LockOf, ChanOk, StateAt;
    assert ProcOk(s, on, np);
  }

  lemma {:induction false} ShapeForkAlloc(s: State, on: seq<int>, c: int, p: int)
    requires Shape(s, on) && IsCpu(s, c) && s.cpus[c].mode == InProc && s.cpus[c].cur == p && IsProc(s, p)
    requires ThreadEnabled(s, c, p, ForkAlloc)
    ensures Shape(ThreadApply(s, c, p, ForkAlloc), on)
  {
    Executing(s, on, c);
    var np := FirstUnused(s.procs);
    if np < |s.procs| {
      EmbryoParked(s, on, np);
    }
    hide Shape, FirstUnused, ProcOk, CpuOk;
    ShapeUpdate(s, ThreadApply(s, c, p, ForkAlloc), on, c);
  }

  lemma {:induction false} ForkStepOk(s: State, c: int, p: int, a: Action)
    requires IsCpu(s, c) && IsProc(s, p) && ThreadEnabled(s, c, p, a) && ForkAction(a) && !a.ForkAlloc?
             && EmbryoOk(s, p)
    requires var np := Building(s.procs[p].pc); IsProc(s, np) ==> s.procs[np].pc.ExitOff? || s.procs[np].pc.Fresh?
    ensures var pc, np := s.procs[p].pc, Building(s.procs[p].pc);
            && IsProc(s, np) && np == pc.np && np != p
            && Parked(ForkChild(s.procs[np], p, a), np) && Backed(ForkChild(s.procs[np], p, a))
            && (var to := ForkPc(np, a);
                HoldsPt(to) == HoldsPt(pc) && LockOf(to) == LockOf(pc)
                && StateAt(to) == StateAt(pc) == ProcState.Running)
  {
  }

  lemma {:induction false} ForkBuilds(s: State, c: int, p: int, a: Action)
    requires IsCpu(s, c) && IsProc(s, p) && ThreadEnabled(s, c, p, a) && ForkAction(a) && !a.ForkAlloc?
             && EmbryoOk(s, p)
    ensures var np := Building(s.procs[p].pc); IsProc(s, np) && s.procs[np].state == Embryo
  {
  }

  lemma {:induction false} ShapeForkStep(s: State, on: seq<int>, c: int, p: int, a: Action)
    requires Shape(s, on) && IsCpu(s, c) && s.cpus[c].mode == InProc && s.cpus[c].cur == p && IsProc(s, p)
    requires ThreadEnabled(s, c, p, a) && ForkAction(a) && !a.ForkAlloc? && EmbryoOk(s, p)
    ensures Shape(ThreadApply(s, c, p, a), on)
  {
    hide ThreadEnabled, Shape, ProcOk, CpuOk, LockApply, OwnProc, OwnCond, TableAfter, TablePc, ForkChild, ForkPc,
         Parked, HoldsPt, LockOf, StateAt, Stage;
    Executing(s, on, c);
    assert IsProc(s, Building(s.procs[p].pc)) && s.procs[Building(s.procs[p].pc)].state == Embryo by {
      ForkBuilds(s, c, p, a);
    }
    EmbryoParked(s, on, Building(s.procs[p].pc));
    ForkStepOk(s, c, p, a);
    ShapeUpdate(s, ThreadApply(s, c, p, a), on, c);
  }

  // ---- the scheduler's steps and the switch out ----

  /** A process about to switch out holds ptable.lock alone, and can be left where it is. */
  lemma {:induction false} SwitchedOut(s: State, on: seq<int>, c: int, p: int)
    requires |on| == |s.procs| && IsCpu(s, c) && IsProc(s, p) && s.cpus[c].mode == InProc && on[p] == c
    requires ThreadEnabled(s, c, p, Swtch) && ProcOk(s, on, p)
    ensures var q := s.procs[p];
            && HoldsPt(q.pc) && LockOf(q.pc) == NONE
            && forall b :: Parked(q.(saved := b, pc := OnPc(q.pc)), p)
  {
  }

  lemma {:induction false} ShapeSwtch(s: State, on: seq<int>, c: int, p: int)
    requires Shape(s, on) && IsCpu(s, c) && s.cpus[c].mode == InProc && s.cpus[c].cur == p && IsProc(s, p)
    requires ThreadEnabled(s, c, p, Swtch)
    ensures Shape(ThreadApply(s, c, p, Swtch), on)
  {
    hide ThreadEnabled, HoldsPt, LockOf, Off, OnPc, StateAt, Parked;
    var t := ThreadApply(s, c, p, Swtch);
    Executing(s, on, c);
    SwitchedOut(s, on, c, p);
    forall d | IsCpu(t, d)
      ensures CpuOk(t, on, d)
    {
      assert CpuOk(s, on, d);
    }
    forall r | IsProc(t, r)
      ensures ProcOk(t, on, r)
    {
      assert ProcOk(s, on, r);
    }
    forall l | IsLock(t, l)
      ensures LockOk(t, l)
    {
      assert LockOk(s, l);
    }
  }

  function SchedOn(s: State, on: seq<int>, c: int, a: Action): (r: seq<int>)
    requires Enabled(s, c, a) && |on| == |s.procs|
    ensures |r| == |on|
  {
    if a.SchedPick? then on[a.p := c]
    else if a.SchedReturn? && 0 <= s.cpus[c].cur < |on| then on[s.cpus[c].cur := NONE]
    else on
  }

  lemma {:induction false} ShapeSchedLock(s: State, on: seq<int>, c: int, a: Action)
    requires Shape(s, on) && Enabled(s, c, a)
             && (a.SchedAcquire? || a.SchedRelease? || a.IntrAcquire? || a.IntrRelease?)
    ensures Shape(SchedApply(s, c, a), on)
  {
    var t := SchedApply(s, c, a);
    hide HoldsPt, LockOf, StateAt, ChanOk, Parked;
    assert CpuOk(s, on, c);
    forall d | IsCpu(t, d)
      ensures CpuOk(t, on, d)
    {
      assert CpuOk(s, on, d);
    }
    forall r | IsProc(t, r)
      ensures ProcOk(t, on, r)
    {
      assert ProcOk(s, on, r);
    }
    forall l | IsLock(t, l)
      ensures LockOk(t, l)
    {
      assert LockOk(s, l);
    }
  }

  lemma {:induction false} ShapeSchedSwitch(s: State, on: seq<int>, c: int, a: Action)
    requires Shape(s, on) && Enabled(s, c, a) && (a.SchedPick? || a.SchedSwitch? || a.SchedReturn?)
    ensures Shape(SchedApply(s, c, a), SchedOn(s, on, c, a))
  {
    var t, on' := SchedApply(s, c, a), SchedOn(s, on, c, a);
    hide LockOf, ChanOk;
    assert CpuOk(s, on, c);
    if a.SchedPick? {
      Others(s, on, c, a.p);
    }
    forall d | IsCpu(t, d)
      ensures CpuOk(t, on', d)
    {
      assert CpuOk(s, on, d);
    }
    forall r | IsProc(t, r)
      ensures ProcOk(t, on', r)
    {
      assert ProcOk(s, on, r);
    }
    forall l | IsLock(t, l)
      ensures LockOk(t, l)
    {
      assert LockOk(s, l);
    }
  }

  lemma {:induction false} ShapeIntrWake(s: State, on: seq<int>, c: int, a: Action)
    requires Shape(s, on) && Enabled(s, c, a) && a.IntrWake?
    ensures Shape(SchedApply(s, c, a), on)
  {
    var t := SchedApply(s, c, a);
    assert CpuOk(s, on, c);
    forall d | IsCpu(t, d)
      ensures CpuOk(t, on, d)
    {
      assert CpuOk(s, on, d);
    }
    forall r | IsProc(t, r)
      ensures ProcOk(t, on, r)
    {
      Others(s, on, c, r);
    }
    forall l | IsLock(t, l)
      ensures LockOk(t, l)
    {
      assert LockOk(s, l);
    }
  }

  // ---- keeping the embryo invariant ----

  ghost predicate EmbryoKept(q: Proc, q': Proc) {
    && (q.state == Embryo ==>
          q'.state == Embryo && q'.parent == q.parent && q'.kstack == q.kstack && q'.pgdir == q.pgdir && q'.pc == q.pc)
    && (q'.state == Embryo ==> q.state == Embryo)
    && (|| Stage(q'.pc) == Stage(q.pc) || (Building(q'.pc) == NONE && !Stage(q.pc).Fork6?)
        || (Stage(q.pc).Fork2? && Stage(q'.pc) == Fork3(Stage(q.pc).np)))
  }

  lemma {:induction false} EmbryosFrame(s: State, t: State)
    requires Embryos(s) && |t.procs| == |s.procs|
    requires forall r :: IsProc(s, r) ==> EmbryoKept(s.procs[r], t.procs[r])
    ensures Embryos(t)
  {
    hide Stage;
    forall r | IsProc(t, r)
      ensures EmbryoOk(t, r)
    {
      assert EmbryoOk(s, r) && EmbryoKept(s.procs[r], t.procs[r]);
      if Building(t.procs[r].pc) != NONE {
        assert EmbryoKept(s.procs[Building(s.procs[r].pc)], t.procs[Building(s.procs[r].pc)]);
      }
    }
    forall r | IsProc(t, r)
      ensures InHands(t, r)
    {
      assert InHands(s, r) && EmbryoKept(s.procs[r], t.procs[r]);
      var up := s.procs[r].parent;
      if IsProc(s, up) {
        assert EmbryoKept(s.procs[up], t.procs[up]);
      }
    }
    forall r, u | IsProc(t, r) && IsProc(t, u)
      ensures OneBuilder(t, r, u)
    {
      OneBuilderKept(s, t, r, u);
    }
  }

  lemma {:induction false} OneBuilderKept(s: State, t: State, r: int, u: int)
    requires |t.procs| == |s.procs| && IsProc(s, r) && IsProc(s, u) && OneBuilder(s, r, u)
    requires EmbryoKept(s.procs[r], t.procs[r]) && EmbryoKept(s.procs[u], t.procs[u])
    ensures OneBuilder(t, r, u)
  {
    hide Stage;
  }

  lemma {:induction false} EmbryosBirth(s: State, t: State, p: int, np: int)
    requires Embryos(s) && IsProc(s, p) && IsProc(s, np) && np != p
    requires |t.procs| == |s.procs| && t.procs == s.procs[np := t.procs[np]][p := t.procs[p]]
    requires s.procs[np].state == Unused && t.procs[np].state == Embryo && t.procs[np].parent == NONE
    requires Building(s.procs[np].pc) == NONE && t.procs[np].pc == s.procs[np].pc
    requires Building(s.procs[p].pc) == NONE && t.procs[p] == s.procs[p].(pc := Fork2(np)) && s.procs[p].state != Embryo
    ensures Embryos(t)
  {
    forall r | IsProc(t, r)
      ensures EmbryoOk(t, r)
      ensures InHands(t, r)
    {
      assert EmbryoOk(s, r) && InHands(s, r);
    }
    forall r, u | IsProc(t, r) && IsProc(t, u)
      ensures OneBuilder(t, r, u)
    {
      assert OneBuilder(s, r, u) && EmbryoOk(s, r) && EmbryoOk(s, u);
    }
  }

  lemma {:induction false} ForkAllocated(s: State, c: int, p: int)
    requires IsCpu(s, c) && IsProc(s, p) && ThreadEnabled(s, c, p, ForkAlloc)
    requires s.procs[p].state == ProcState.Running
    ensures s.procs[p].pc.Fork1?
    ensures var np := FirstUnused(s.procs);
            ThreadApply(s, c, p, ForkAlloc).procs ==
            if np == |s.procs| then s.procs[p := s.procs[p].(pc := Done)]
            else s.procs[np := s.procs[np].(state := Embryo, pid := s.nextpid)][p := s.procs[p].(pc := Fork2(np))]
  {
    hide LockApply, OwnProc, OwnCond, TableAfter, TablePc;
  }

  lemma {:induction false} EmbryosForkAlloc(s: State, on: seq<int>, c: int, p: int)
    requires Shape(s, on) && Embryos(s) && Families(s) && IsCpu(s, c) && IsProc(s, p)
             && s.procs[p].state == ProcState.Running
    requires ThreadEnabled(s, c, p, ForkAlloc)
    ensures Embryos(ThreadApply(s, c, p, ForkAlloc))
  {
    hide ThreadApply, ThreadEnabled, FirstUnused, Embryos, Families, Shape;
    var np, t := FirstUnused(s.procs), ThreadApply(s, c, p, ForkAlloc);
    ForkAllocated(s, c, p);
    if np < |s.procs| {
      assert s.procs[np].parent == NONE by {
        UnusedOrphan(s, np);
      }
      EmbryoParked(s, on, np);
      EmbryosBirth(s, t, p, np);
    } else {
      EmbryosFrame(s, t);
    }
  }

  lemma {:induction false} UnusedOrphan(s: State, np: int)
    requires Families(s) && IsProc(s, np) && s.procs[np].state == Unused
    ensures s.procs[np].parent == NONE
  {
    assert FamilyOk(s, np);
  }

  lemma {:induction false} EmbryosReplace(s: State, t: State, p: int, np: int)
    requires Embryos(s) && IsProc(s, p) && IsProc(s, np) && np != p && Building(s.procs[p].pc) == np
             && s.procs[p].state != Embryo
    requires |t.procs| == |s.procs| && t.procs == s.procs[np := t.procs[np]][p := t.procs[p]]
    requires Building(s.procs[np].pc) == NONE && Building(t.procs[np].pc) == NONE
    requires EmbryoOk(t, p) && (Building(t.procs[p].pc) == NONE || Building(t.procs[p].pc) == np)
    requires InHands(t, np) && t.procs[p].state != Embryo
    ensures Embryos(t)
  {
    hide Stage;
    forall r | IsProc(t, r) && r != p && r != np
      ensures InHands(t, r)
    {
      assert InHands(s, r);
    }
    forall r | IsProc(t, r) && r != p && r != np
      ensures EmbryoOk(t, r)
    {
      assert EmbryoOk(s, r) && EmbryoOk(s, p) && OneBuilder(s, p, r) && OneBuilder(s, r, p);
    }
    forall r, u | IsProc(t, r) && IsProc(t, u)
      ensures OneBuilder(t, r, u)
    {
      assert OneBuilder(s, r, u);
    }
  }

  lemma {:induction false} EmbryosForkStep(s: State, c: int, p: int, a: Action)
    requires Embryos(s) && IsCpu(s, c) && IsProc(s, p) && s.procs[p].state == ProcState.Running
    requires ThreadEnabled(s, c, p, a) && ForkAction(a) && !a.ForkAlloc?
    requires var np := Building(s.procs[p].pc); IsProc(s, np) ==> s.procs[np].pc.ExitOff? || s.procs[np].pc.Fresh?
    ensures Embryos(ThreadApply(s, c, p, a))
  {
    hide Embryos, ThreadApply, ThreadEnabled, Stage;
    var t, np := ThreadApply(s, c, p, a), Building(s.procs[p].pc);
    assert EmbryoOk(s, p) by {
      BuilderOk(s, p);
    }
    ForkStepped(s, c, p, a);
    EmbryosReplace(s, t, p, np);
  }

  lemma {:induction false} BuilderOk(s: State, p: int)
    requires Embryos(s) && IsProc(s, p)
    ensures EmbryoOk(s, p)
  {
  }

  /** What a step of fork after the allocation leaves of its maker and of the process it makes. */
  lemma {:induction false} ForkStepped(s: State, c: int, p: int, a: Action)
    requires IsCpu(s, c) && IsProc(s, p) && s.procs[p].state == ProcState.Running && EmbryoOk(s, p)
    requires ThreadEnabled(s, c, p, a) && ForkAction(a) && !a.ForkAlloc?
    requires var np := Building(s.procs[p].pc); IsProc(s, np) ==> s.procs[np].pc.ExitOff? || s.procs[np].pc.Fresh?
    ensures var t, np := ThreadApply(s, c, p, a), Building(s.procs[p].pc);
            && IsProc(s, np) && np != p && t.procs == s.procs[np := t.procs[np]][p := t.procs[p]]
            && Building(s.procs[np].pc) == NONE && Building(t.procs[np].pc) == NONE
            && EmbryoOk(t, p) && (Building(t.procs[p].pc) == NONE || Building(t.procs[p].pc) == np)
            && InHands(t, np) && t.procs[p].state == ProcState.Running
  {
    hide ThreadApply, ThreadEnabled;
    ForkProcs(s, c, p, a);
  }

  lemma {:induction false} ForkProcs(s: State, c: int, p: int, a: Action)
    requires IsCpu(s, c) && IsProc(s, p) && EmbryoOk(s, p)
    requires ThreadEnabled(s, c, p, a) && ForkAction(a) && !a.ForkAlloc?
    ensures var pc, np := s.procs[p].pc, Building(s.procs[p].pc);
            && (|| (a.ForkStack? && pc == Fork3(np)) || (a.ForkCopy? && pc == Fork4(np))
                || (a.ForkParent? && pc == Fork5(np)) || (a.ForkReady? && pc == Fork6(np)))
            && IsProc(s, np) && np != p
            && ThreadApply(s, c, p, a).procs
               == s.procs[np := ForkChild(s.procs[np], p, a)][p := s.procs[p].(pc := ForkPc(np, a))]
  {
    hide LockApply, OwnProc, OwnCond, TableAfter, TablePc, LockOf, HoldsPt, ForkChild, ForkPc;
  }

  // ---- the invariant: parents and zombies ----

  ghost predicate Alive(st: ProcState) {
    Live(st) && st != Zombie
  }

  /** Asleep in wait. */
  ghost predicate Waiting(q: Proc, p: int) {
    q.state == Sleeping && q.chan == OnProc(p)
  }

  ghost predicate FamilyOk(s: State, p: int)
    requires IsProc(s, p)
  {
    var q := s.procs[p];
    && (q.state == Unused || p == s.init ==> q.parent == NONE) && q.parent != p
    && (q.parent != NONE ==> IsProc(s, q.parent) && Alive(s.procs[q.parent].state))
    && (q.state == Zombie && q.parent != NONE ==> IsProc(s, q.parent) && !Waiting(s.procs[q.parent], q.parent))
    && (p != s.init && Live(q.state) ==> q.parent != NONE)
  }

  ghost predicate Families(s: State) {
    && IsProc(s, s.init) && Alive(s.procs[s.init].state)
    && forall p :: IsProc(s, p) ==> FamilyOk(s, p)
  }

  ghost predicate FamilyKept(q: Proc, q': Proc, p: int) {
    && q'.parent == q.parent && Live(q'.state) == Live(q.state) && (q'.state == Zombie <==> q.state == Zombie)
    && (q'.state == Unused <==> q.state == Unused) && (Waiting(q', p) ==> Waiting(q, p))
  }

  lemma {:induction false} FamiliesFrame(s: State, t: State)
    requires Families(s) && |t.procs| == |s.procs| && t.init == s.init
    requires forall r :: IsProc(s, r) ==> FamilyKept(s.procs[r], t.procs[r], r)
    ensures Families(t)
  {
    assert FamilyKept(s.procs[s.init], t.procs[s.init], s.init);
    forall r | IsProc(t, r)
      ensures FamilyOk(t, r)
    {
      assert FamilyOk(s, r) && FamilyKept(s.procs[r], t.procs[r], r);
      var up := s.procs[r].parent;
      assert up != NONE ==> FamilyKept(s.procs[up], t.procs[up], up);
    }
  }

  /** wait goes to sleep only after finding no zombie among its children. */
  lemma {:induction false} FamiliesWaitSleep(s: State, c: int, p: int)
    requires Families(s) && IsCpu(s, c) && IsProc(s, p) && s.procs[p].state == ProcState.Running
    requires ThreadEnabled(s, c, p, WaitSleep)
    ensures Families(ThreadApply(s, c, p, WaitSleep))
  {
    var t := ThreadApply(s, c, p, WaitSleep);
    assert forall r :: IsProc(s, r) ==> !ZombieChild(s.procs[r], p);
    forall r | IsProc(t, r)
      ensures FamilyOk(t, r)
    {
      assert FamilyOk(s, r);
      assert !ZombieChild(s.procs[r], p);
    }
  }

  /** What exit does to each process. */
  lemma {:induction false} ExitEffect(s: State, p: int, r: int)
    requires IsProc(s, p) && IsProc(s, r) && IsProc(s, s.init) && s.procs[p].state == ProcState.Running
    ensures var q, q' := s.procs[r], Exited(s.procs, p, s.init)[r];
            && q'.parent == (if q.parent == p then s.init else q.parent)
            && q'.chan == q.chan && q'.pc == q.pc && q'.kstack == q.kstack && q'.pgdir == q.pgdir
            && (if r == p then q'.state == Zombie
                else q'.state == q.state || (q.state == Sleeping && q'.state == Runnable))
            && (Waiting(q', r) ==> Waiting(q, r) && r != s.procs[p].parent)
  {
    hide Exited;
    ExitedAt(s.procs, p, s.init, r);
  }

  /** After exit nobody has the exiting process as parent, and whoever has a zombie child is awake. */
  lemma {:induction false} FamiliesExited(s: State, t: State, p: int)
    requires Families(s) && IsProc(s, p) && s.procs[p].state == ProcState.Running && p != s.init && t.init == s.init
    requires |t.procs| == |s.procs|
    requires var ps := Exited(s.procs, p, s.init); t.procs == ps[p := ps[p].(pc := t.procs[p].pc)]
    ensures Families(t)
  {
    hide Exited;
    ExitWakesInit(s, p);
    ExitEffect(s, p, s.init);
    ExitEffect(s, p, p);
    forall r | IsProc(t, r)
      ensures FamilyOk(t, r)
    {
      assert FamilyOk(s, r) && FamilyOk(s, p);
      ExitEffect(s, p, r);
      var up := s.procs[r].parent;
      if up != NONE {
        ExitEffect(s, p, up);
      }
      assert s.procs[r].parent == p && s.procs[r].state == Zombie ==> ZombieChild(s.procs[r], p);
    }
  }

  lemma {:induction false} ExitWakesInit(s: State, p: int)
    requires IsProc(s, p) && IsProc(s, s.init) && p != s.init
    ensures (exists r :: IsProc(s, r) && ZombieChild(s.procs[r], p)) ==>
              !Waiting(Exited(s.procs, p, s.init)[s.init], s.init)
  {
    var woken := WakeupAll(s.procs, OnProc(s.procs[p].parent));
    if r :| IsProc(s, r) && ZombieChild(s.procs[r], p) {
      assert ZombieChild(woken[r], p);
      assert LeavesZombie(woken, p);
    }
  }

  lemma {:induction false} ReapedProcs(s: State, c: int, p: int)
    requires IsCpu(s, c) && IsProc(s, p) && s.procs[p].state == ProcState.Running
    requires ThreadEnabled(s, c, p, WaitReap)
    ensures var z := FirstZombie(s.procs, p);
            && z < |s.procs| && z != p && ZombieChild(s.procs[z], p) && s.procs[p].pc.Wait1?
            && ThreadApply(s, c, p, WaitReap).procs
               == s.procs[z := Reaped(s.procs[z])][p := s.procs[p].(pc := Done)]
  {
    hide LockApply, OwnProc, OwnCond, ForkApply;
  }

  lemma {:induction false} FamiliesReap(s: State, c: int, p: int)
    requires Families(s) && IsCpu(s, c) && IsProc(s, p) && s.procs[p].state == ProcState.Running
    requires ThreadEnabled(s, c, p, WaitReap)
    ensures Families(ThreadApply(s, c, p, WaitReap))
  {
    hide FirstZombie, ThreadApply, ThreadEnabled;
    var t := ThreadApply(s, c, p, WaitReap);
    ReapedProcs(s, c, p);
    forall r | IsProc(t, r)
      ensures FamilyOk(t, r)
    {
      assert FamilyOk(s, r);
    }
  }

  lemma {:induction false} FamiliesForkAlloc(s: State, c: int, p: int)
    requires Families(s) && IsCpu(s, c) && IsProc(s, p) && s.procs[p].state == ProcState.Running
    requires ThreadEnabled(s, c, p, ForkAlloc)
    ensures Families(ThreadApply(s, c, p, ForkAlloc))
  {
    hide FirstUnused, ThreadApply, ThreadEnabled;
    var t := ThreadApply(s, c, p, ForkAlloc);
    ForkAllocated(s, c, p);
    forall r | IsProc(s, r)
      ensures AllocKept(s.procs[r], t.procs[r])
    {
    }
    FamiliesAlloc(s, t);
  }

  /** An unused slot may become an embryo; parents and sleepers stay. */
  ghost predicate AllocKept(q: Proc, q': Proc) {
    q'.parent == q.parent && q'.chan == q.chan && (q'.state == q.state || (q.state == Unused && q'.state == Embryo))
  }

  lemma {:induction false} FamiliesAlloc(s: State, t: State)
    requires Families(s) && |t.procs| == |s.procs| && t.init == s.init
    requires forall r :: IsProc(s, r) ==> AllocKept(s.procs[r], t.procs[r])
    ensures Families(t)
  {
    assert AllocKept(s.procs[s.init], t.procs[s.init]);
    forall r | IsProc(t, r)
      ensures FamilyOk(t, r)
    {
      assert FamilyOk(s, r) && AllocKept(s.procs[r], t.procs[r]);
      var up := s.procs[r].parent;
      assert up != NONE ==> AllocKept(s.procs[up], t.procs[up]);
    }
  }

  /** fork changes only the child's entry, from Embryo to Unused, Embryo or Runnable. */
  lemma {:induction false} FamiliesChild(s: State, t: State, p: int, np: int)
    requires Families(s) && IsProc(s, p) && IsProc(s, np) && np != p && t.init == s.init
    requires |t.procs| == |s.procs| && t.procs == s.procs[np := t.procs[np]][p := t.procs[p]]
    requires FamilyKept(s.procs[p], t.procs[p], p) && Alive(s.procs[p].state) && s.procs[np].state == Embryo
    requires var q := t.procs[np];
             && (q.parent == NONE || q.parent == p)
             && ((q.state == Unused && q.parent == NONE) || q.state == Embryo || (q.state == Runnable && q.parent == p))
    ensures Families(t)
  {
    forall r | IsProc(t, r)
      ensures FamilyOk(t, r)
    {
      assert FamilyOk(s, r);
    }
  }

  lemma {:induction false} FamiliesForkStep(s: State, c: int, p: int, a: Action)
    requires Families(s) && IsCpu(s, c) && IsProc(s, p) && s.procs[p].state == ProcState.Running
    requires ThreadEnabled(s, c, p, a) && ForkAction(a) && !a.ForkAlloc? && EmbryoOk(s, p)
    ensures Families(ThreadApply(s, c, p, a))
  {
    hide Families, LockApply, OwnProc, OwnCond, TableAfter, TablePc, LockOf, HoldsPt;
    FamiliesChild(s, ThreadApply(s, c, p, a), p, s.procs[p].pc.np);
  }

  // ---- the invariant: no lost wakeup ----

  function PcLock(pc: Pc): int {
    match pc
    case Crit(l) => l case Slp1(l) => l case Slp2(l) => l case Slp3(l) => l case SlpOff(l) => l case SlpOn(l) => l
    case SlpDone(l) => l case Post1(l) => l case Post2(l) => l case Post3(l) => l
    case _ => NONE
  }

  /** Asleep on a lock's channel, or past the point of no return towards it. */
  ghost predicate Dozing(q: Proc) {
    q.pc.Slp3? || q.pc.SlpOff? || (q.pc.SlpOn? && q.state == Sleeping)
  }

  /** The holder of lock l has set the condition and is on its way to wake the sleepers. */
  ghost predicate Pending(s: State, l: int)
    requires IsLock(s, l)
  {
    && IsCpu(s, s.lk[l]) && s.cpus[s.lk[l]].mode == InProc && IsProc(s, s.cpus[s.lk[l]].cur)
    && var pc := s.procs[s.cpus[s.lk[l]].cur].pc; (pc.Post1? || pc.Post2?) && pc.l == l
  }

  ghost predicate WakeOk(s: State, p: int)
    requires IsProc(s, p)
  {
    var q := s.procs[p];
    PcLock(q.pc) != NONE ==>
      && IsLock(s, PcLock(q.pc))
      && (q.pc.Slp1? || q.pc.Slp2? ==> !s.cond[PcLock(q.pc)])
      && (Dozing(q) && s.cond[PcLock(q.pc)] ==> Pending(s, PcLock(q.pc)))
  }

  ghost predicate Wakes(s: State) {
    forall p :: IsProc(s, p) ==> WakeOk(s, p)
  }

  /** Nothing at lock l makes an earlier decision to sleep wrong. */
  ghost predicate LockKept(s: State, t: State, l: int)
    requires IsLock(s, l) && |t.lk| == |s.lk| && |t.cond| == |s.cond|
  {
    (t.cond[l] ==> s.cond[l]) && (t.cond[l] && Pending(s, l) ==> Pending(t, l))
  }

  ghost predicate DozeKept(q: Proc, q': Proc) {
    || PcLock(q'.pc) == NONE
    || (q'.pc == q.pc && (Dozing(q') ==> Dozing(q)))
    || (q.pc.Slp1? && q'.pc == Slp2(q.pc.l)) || (q.pc.Slp2? && q'.pc == Slp3(q.pc.l))
    || (q.pc.Slp3? && q'.pc == SlpOff(q.pc.l)) || (q.pc.SlpOff? && q'.pc == SlpOn(q.pc.l))
    || (PcLock(q'.pc) == PcLock(q.pc)
        && (q'.pc.Crit? || q'.pc.SlpDone? || q'.pc.Post1? || q'.pc.Post2? || q'.pc.Post3?))
  }

  lemma {:induction false} WakesFrame(s: State, t: State)
    requires Wakes(s) && |t.procs| == |s.procs| && |t.lk| == |s.lk| && |t.cond| == |s.cond|
    requires forall l :: IsLock(s, l) ==> LockKept(s, t, l)
    requires forall r :: IsProc(s, r) ==> DozeKept(s.procs[r], t.procs[r]) || WakeOk(t, r)
    ensures Wakes(t)
  {
    hide Pending;
    forall r | IsProc(t, r)
      ensures WakeOk(t, r)
    {
      assert WakeOk(s, r);
      var l := PcLock(s.procs[r].pc);
      if l != NONE {
        assert LockKept(s, t, l);
      }
    }
  }

  ghost predicate OwnMoved(s: State, t: State, p: int, a: Action)
    requires IsProc(s, p) && IsProc(t, p)
  {
    var q, q' := s.procs[p], t.procs[p];
    && (DozeKept(q, q') || (q'.pc.Crit? && IsLock(t, q'.pc.l)) || (q'.pc.Slp1? && IsLock(t, q'.pc.l)
                                                                   && !t.cond[q'.pc.l]))
    && (q.pc.Post1? ==> q'.pc == Post2(q.pc.l))
    && (q.pc.Post2? ==> a.WakeAll?)
  }

  lemma {:induction false} OwnMoveLock(s: State, c: int, p: int, a: Action)
    requires IsCpu(s, c) && IsProc(s, p) && ThreadEnabled(s, c, p, a) && (LockAction(a) || a.Swtch?)
    requires s.procs[p].state == StateAt(s.procs[p].pc)
    ensures OwnMoved(s, ThreadApply(s, c, p, a), p, a)
  {
    hide ForkApply, OwnProc, OwnCond, TableAfter, TablePc;
  }

  lemma {:induction false} OwnMoveOwn(s: State, c: int, p: int, a: Action)
    requires IsCpu(s, c) && IsProc(s, p) && ThreadEnabled(s, c, p, a) && OwnAction(a)
    ensures OwnMoved(s, ThreadApply(s, c, p, a), p, a)
  {
    hide LockApply, ForkApply, TableAfter, TablePc, FirstZombie, HasChild;
  }

  lemma {:induction false} OwnMoveTable(s: State, c: int, p: int, a: Action)
    requires IsCpu(s, c) && IsProc(s, p) && ThreadEnabled(s, c, p, a) && TableAction(a)
    ensures OwnMoved(s, ThreadApply(s, c, p, a), p, a)
  {
    hide LockApply, ForkApply, TableAfter, OwnProc, OwnCond, FirstZombie;
  }

  lemma {:induction false} OwnMoveFork(s: State, c: int, p: int, a: Action)
    requires IsCpu(s, c) && IsProc(s, p) && ThreadEnabled(s, c, p, a) && ForkAction(a)
    ensures OwnMoved(s, ThreadApply(s, c, p, a), p, a)
  {
    hide LockApply, TableAfter, TablePc, OwnProc, OwnCond, FirstUnused, ForkChild;
  }

  /** How a step of p moves p itself. */
  lemma {:induction false} OwnMove(s: State, c: int, p: int, a: Action)
    requires IsCpu(s, c) && IsProc(s, p) && ThreadEnabled(s, c, p, a) && !SchedAction(a)
    requires s.procs[p].state == StateAt(s.procs[p].pc)
    ensures OwnMoved(s, ThreadApply(s, c, p, a), p, a)
  {
    hide ThreadEnabled, ThreadApply, OwnMoved;
    if LockAction(a) || a.Swtch? {
      OwnMoveLock(s, c, p, a);
    } else if OwnAction(a) {
      OwnMoveOwn(s, c, p, a);
    } else if TableAction(a) {
      OwnMoveTable(s, c, p, a);
    } else {
      OwnMoveFork(s, c, p, a);
    }
  }

  ghost predicate OtherMoved(q: Proc, q': Proc) {
    && (q'.pc == q.pc || (q.state == Embryo && q'.pc.Fresh?))
    && (q'.state == Sleeping ==> q.state == Sleeping)
  }

  lemma {:induction false} OtherMoveFork(s: State, c: int, p: int, a: Action, r: int)
    requires IsCpu(s, c) && IsProc(s, p) && ThreadEnabled(s, c, p, a) && IsProc(s, r) && r != p
    requires ForkAction(a) && (!a.ForkAlloc? ==> EmbryoOk(s, p))
    ensures OtherMoved(s.procs[r], ThreadApply(s, c, p, a).procs[r])
  {
    hide LockApply, TableAfter, TablePc, OwnProc, OwnCond, FirstUnused, ForkPc;
  }

  /** A step of p leaves every other process where it is in the code, and puts none to sleep. */
  lemma {:induction false} OtherMove(s: State, c: int, p: int, a: Action, r: int)
    requires IsCpu(s, c) && IsProc(s, p) && ThreadEnabled(s, c, p, a)
             && (ForkAction(a) && !a.ForkAlloc? ==> EmbryoOk(s, p))
    requires IsProc(s, r) && r != p && !SchedAction(a)
    ensures OtherMoved(s.procs[r], ThreadApply(s, c, p, a).procs[r])
  {
    hide ThreadEnabled, TableAfter, TablePc, OwnProc, OwnCond, ForkApply;
    if ForkAction(a) {
      OtherMoveFork(s, c, p, a, r);
    } else if TableAction(a) {
      TableEffect(s, c, p, a, r);
    }
  }

  /** What a step of p does to the lock words, conditions and other CPUs. */
  lemma {:induction false} LockMove(s: State, c: int, p: int, a: Action)
    requires IsCpu(s, c) && IsProc(s, p) && ThreadEnabled(s, c, p, a)
    ensures var t := ThreadApply(s, c, p, a);
            && |t.cpus| == |s.cpus| && |t.lk| == |s.lk| && |t.cond| == |s.cond| && |t.procs| == |s.procs|
            && t.init == s.init
            && (forall d :: IsCpu(s, d) && d != c ==> t.cpus[d] == s.cpus[d])
            && (!a.Swtch? ==> t.cpus[c].mode == s.cpus[c].mode && t.cpus[c].cur == s.cpus[c].cur)
            && (forall l :: IsLock(s, l) && t.lk[l] != s.lk[l] ==>
                  (a.AcquireLock? && s.lk[l] == NONE) || (a.ReleaseLock? && s.procs[p].pc.l == l))
            && (forall l :: IsLock(s, l) && t.cond[l] ==> s.cond[l] || (a.Post? && s.procs[p].pc == Crit(l)))
  {
    hide FirstUnused, FirstPid, FirstZombie, WakeupAll, Killed, Exited;
  }

  /** A pending wakeup stays pending unless its own thread carries it out. */
  lemma {:induction false} PendingKept(s: State, on: seq<int>, c: int, p: int, a: Action, l: int)
    requires Shape(s, on) && IsCpu(s, c) && s.cpus[c].mode == InProc && s.cpus[c].cur == p && IsProc(s, p)
             && IsLock(s, l)
    requires ThreadEnabled(s, c, p, a) && !SchedAction(a) && !a.WakeAll?
             && (ForkAction(a) && !a.ForkAlloc? ==> EmbryoOk(s, p))
    requires Pending(s, l)
    ensures Pending(ThreadApply(s, c, p, a), l)
  {
    hide ThreadEnabled, ThreadApply, HoldsPt, ChanOk, Parked, Resumable, Shape, DozeKept;
    Executing(s, on, c);
    OwnMove(s, c, p, a);
    LockMove(s, c, p, a);
    PendingMoves(s, c, p, a);
    var d := s.lk[l];
    var x := s.cpus[d].cur;
    Executing(s, on, d);
    if x != p {
      OtherMove(s, c, p, a, x);
    }
  }

  /** The lock steps that give a lock away, and the switch, are not at a pending place. */
  lemma {:induction false} PendingMoves(s: State, c: int, p: int, a: Action)
    requires IsCpu(s, c) && IsProc(s, p) && ThreadEnabled(s, c, p, a)
    ensures a.ReleaseLock? || a.Swtch? ==> !s.procs[p].pc.Post1? && !s.procs[p].pc.Post2?
    ensures a.ReleaseLock? ==> LockOf(s.procs[p].pc) == s.procs[p].pc.l
  {
  }

  lemma {:induction false} WakesThread(s: State, on: seq<int>, c: int, p: int, a: Action)
    requires Shape(s, on) && Wakes(s) && IsCpu(s, c) && s.cpus[c].mode == InProc && s.cpus[c].cur == p && IsProc(s, p)
    requires ThreadEnabled(s, c, p, a) && !SchedAction(a) && !a.WakeAll? && !a.Post?
    requires ForkAction(a) && !a.ForkAlloc? ==> EmbryoOk(s, p)
    ensures Wakes(ThreadApply(s, c, p, a))
  {
    hide ThreadEnabled, ThreadApply, Shape, Wakes, Pending, StateAt;
    var t := ThreadApply(s, c, p, a);
    Executing(s, on, c);
    OwnMove(s, c, p, a);
    LockMove(s, c, p, a);
    forall r | IsProc(s, r)
      ensures DozeKept(s.procs[r], t.procs[r]) || WakeOk(t, r)
    {
      if r != p {
        OtherMove(s, c, p, a, r);
      }
    }
    forall l | IsLock(s, l)
      ensures LockKept(s, t, l)
    {
      if Pending(s, l) {
        PendingKept(s, on, c, p, a, l);
      }
    }
    WakesFrame(s, t);
  }

  /** Setting the condition: the only one who could still act on its old value holds the lock. */
  lemma {:induction false} WakesPost(s: State, on: seq<int>, c: int, p: int)
    requires Shape(s, on) && Wakes(s) && IsCpu(s, c) && s.cpus[c].mode == InProc && s.cpus[c].cur == p && IsProc(s, p)
    requires ThreadEnabled(s, c, p, Post)
    ensures Wakes(ThreadApply(s, c, p, Post))
  {
    var t, l := ThreadApply(s, c, p, Post), s.procs[p].pc.l;
    Executing(s, on, c);
    assert t == s.(procs := s.procs[p := s.procs[p].(pc := Post1(l))], cond := s.cond[l := true]);
    hide ThreadApply, ThreadEnabled;
    assert Pending(t, l);
    forall r | IsProc(t, r) && r != p
      ensures WakeOk(t, r)
    {
      assert WakeOk(s, r);
      SlpOnCpu(s, on, r);
      var k := PcLock(s.procs[r].pc);
      if k != NONE && k != l && Pending(s, k) {
        Executing(s, on, s.lk[k]);
      }
    }
  }

  /** A process at Slp1 or Slp2 is running, and holds the lock. */
  lemma {:induction false} SlpOnCpu(s: State, on: seq<int>, r: int)
    requires Shape(s, on) && IsProc(s, r)
    ensures s.procs[r].pc.Slp1? || s.procs[r].pc.Slp2? ==>
              on[r] != NONE && IsLock(s, s.procs[r].pc.l) && s.lk[s.procs[r].pc.l] == on[r]
    ensures s.procs[r].pc.Slp3? || s.procs[r].pc.SlpOff? ==> on[r] != NONE && s.pt == on[r]
    ensures on[r] != NONE ==> IsCpu(s, on[r]) && s.cpus[on[r]].cur == r
  {
    assert ProcOk(s, on, r);
    if on[r] != NONE {
      assert CpuOk(s, on, on[r]);
    }
  }

  /** The wakeup: with ptable.lock held nobody is on the way to sleep, and all sleepers are woken. */
  lemma {:induction false} WakesAll(s: State, on: seq<int>, c: int, p: int)
    requires Shape(s, on) && Wakes(s) && IsCpu(s, c) && s.cpus[c].mode == InProc && s.cpus[c].cur == p && IsProc(s, p)
    requires ThreadEnabled(s, c, p, WakeAll)
    ensures Wakes(ThreadApply(s, c, p, WakeAll))
  {
    var t, l := ThreadApply(s, c, p, WakeAll), s.procs[p].pc.l;
    Executing(s, on, c);
    assert s.pt == c;
    assert t == s.(procs := WakeupAll(s.procs, OnLock(l))[p := s.procs[p].(pc := Post3(l))]);
    hide ThreadApply, ThreadEnabled;
    forall r | IsProc(t, r) && r != p
      ensures WakeOk(t, r)
    {
      assert WakeOk(s, r);
      SlpOnCpu(s, on, r);
      Others(s, on, c, r);
      var k := PcLock(s.procs[r].pc);
      if k != NONE && k != l && Pending(s, k) {
        Executing(s, on, s.lk[k]);
      }
    }
  }

  // ---- every step keeps the invariant ----

  ghost predicate Inv(s: State, on: seq<int>) {
    Shape(s, on) && Embryos(s) && Families(s) && Wakes(s) && InitStays(s)
  }

  lemma {:induction false} ShapeThread(s: State, on: seq<int>, c: int, p: int, a: Action)
    requires Shape(s, on) && Embryos(s) && IsCpu(s, c) && s.cpus[c].mode == InProc && s.cpus[c].cur == p && IsProc(s, p)
    requires ThreadEnabled(s, c, p, a) && !SchedAction(a)
    ensures Shape(ThreadApply(s, c, p, a), on)
  {
    hide ThreadEnabled, ThreadApply, Shape;
    assert EmbryoOk(s, p);
    if LockAction(a) {
      ShapeLockStep(s, on, c, p, a);
    } else if OwnAction(a) {
      ShapeOwnStep(s, on, c, p, a);
    } else if TableAction(a) {
      ShapeTableStep(s, on, c, p, a);
    } else if a.ForkAlloc? {
      ShapeForkAlloc(s, on, c, p);
    } else if a.Swtch? {
      ShapeSwtch(s, on, c, p);
    } else {
      ShapeForkStep(s, on, c, p, a);
    }
  }

  /** A step of p that is not part of fork, exit or the reaping in wait keeps births and families. */
  lemma {:induction false} PlainLock(s: State, c: int, p: int, a: Action)
    requires IsCpu(s, c) && IsProc(s, p) && ThreadEnabled(s, c, p, a) && (LockAction(a) || a.Swtch?)
    requires s.procs[p].state == StateAt(s.procs[p].pc)
    ensures var q, q' := s.procs[p], ThreadApply(s, c, p, a).procs[p];
            EmbryoKept(q, q') && FamilyKept(q, q', p)
  {
    hide ThreadApply, ThreadEnabled, StateAt, Stage, Builds;
    LockProc(s, c, p, a);
    LockStage(s, c, p, a);
    NeverEmbryo(s.procs[p].pc);
  }

  lemma {:induction false} LockProc(s: State, c: int, p: int, a: Action)
    requires IsCpu(s, c) && IsProc(s, p) && ThreadEnabled(s, c, p, a) && (LockAction(a) || a.Swtch?)
    ensures var q, q' := s.procs[p], ThreadApply(s, c, p, a).procs[p]; q' == q.(pc := q'.pc, saved := q'.saved)
  {
    hide ThreadEnabled, ForkApply, TableAfter, TablePc, OwnProc, OwnCond, AfterRelease, OnPc;
  }

  ghost predicate StageKept(pc: Pc, pc': Pc) {
    || Stage(pc') == Stage(pc) || (Builds(Stage(pc')) == NONE && !Stage(pc).Fork6?)
    || (Stage(pc).Fork2? && Stage(pc') == Fork3(Stage(pc).np))
  }

  lemma {:induction false} LockStage(s: State, c: int, p: int, a: Action)
    requires IsCpu(s, c) && IsProc(s, p) && ThreadEnabled(s, c, p, a) && (LockAction(a) || a.Swtch?)
    ensures StageKept(s.procs[p].pc, ThreadApply(s, c, p, a).procs[p].pc)
  {
    hide ForkApply, TableAfter, TablePc, OwnProc, OwnCond, LockOf, HoldsPt, StageKept, PcOf, OnPc, AfterRelease;
    var pc := s.procs[p].pc;
    match a
    case AcquirePt(to) => EntryStage(pc, to);
    case ReleasePt => ReleaseStage(pc);
    case AcquireLock(l) => NoneBuilt(pc, Crit(l));
    case ReleaseLock => NoneBuilt(pc, if pc.Crit? then User else Slp3(pc.l));
    case Swtch => SwitchStage(pc);
  }

  lemma {:induction false} NoneBuilt(pc: Pc, pc': Pc)
    requires !Stage(pc).Fork6? && Builds(Stage(pc')) == NONE
    ensures StageKept(pc, pc')
  {
  }

  lemma {:induction false} EntryStage(pc: Pc, to: Pc)
    requires || (to.Yld1? && pc == PcOf(to.at))
             || ((pc.User? || pc.Slp1? || pc.Post1?)
                 && (to.Kill1? || to.Fork1? || to.Wait1? || to.Wake1? || to.Exit1? || to.Slp2? || to.Post2?))
    ensures StageKept(pc, to)
  {
  }

  lemma {:induction false} ReleaseStage(pc: Pc)
    requires CanRelease(pc)
    ensures StageKept(pc, AfterRelease(pc))
  {
  }

  lemma {:induction false} SwitchStage(pc: Pc)
    requires Off(pc)
    ensures StageKept(pc, OnPc(pc))
  {
  }

  lemma {:induction false} NeverEmbryo(pc: Pc)
    ensures StateAt(pc) != Embryo
  {
  }

  lemma {:induction false} PlainOwn(s: State, c: int, p: int, a: Action)
    requires IsCpu(s, c) && IsProc(s, p) && ThreadEnabled(s, c, p, a) && OwnAction(a)
    requires s.procs[p].state == StateAt(s.procs[p].pc)
    ensures var q, q' := s.procs[p], OwnProc(s, c, p, a);
            EmbryoKept(q, q') && (a.WaitSleep? || FamilyKept(q, q', p))
  {
    hide FirstZombie, HasChild, Stage, Builds, Building;
    OwnStage(s, c, p, a);
  }

  lemma {:induction false} OwnStage(s: State, c: int, p: int, a: Action)
    requires IsCpu(s, c) && IsProc(s, p) && ThreadEnabled(s, c, p, a) && OwnAction(a)
    ensures var pc, pc' := s.procs[p].pc, OwnProc(s, c, p, a).pc;
            Stage(pc') == Stage(pc) || (Building(pc') == NONE && !Stage(pc).Fork6?)
  {
    hide FirstZombie, HasChild, PcOf;
    if a.GoYield? {
      assert Stage(YldOff(s.procs[p].pc.at)) == Stage(s.procs[p].pc);
    }
  }

  lemma {:induction false} OwnApplied(s: State, c: int, p: int, a: Action)
    requires IsCpu(s, c) && IsProc(s, p) && ThreadEnabled(s, c, p, a) && OwnAction(a)
    ensures ThreadApply(s, c, p, a).procs[p] == OwnProc(s, c, p, a)
  {
    hide ThreadEnabled, LockApply, ForkApply, TableAfter, TablePc, OwnProc, OwnCond;
  }

  lemma {:induction false} PlainOther(s: State, c: int, p: int, a: Action, r: int)
    requires IsCpu(s, c) && IsProc(s, p) && ThreadEnabled(s, c, p, a) && (LockAction(a) || OwnAction(a) || a.Swtch?)
    requires IsProc(s, r) && r != p
    ensures ThreadApply(s, c, p, a).procs[r] == s.procs[r]
  {
    hide ThreadEnabled, ForkApply, TableAfter, TablePc, OwnProc, OwnCond, FirstZombie, HasChild;
  }

  lemma {:induction false} KeptSelf(q: Proc, r: int)
    ensures EmbryoKept(q, q) && FamilyKept(q, q, r)
  {
    hide Stage;
  }

  lemma {:induction false} RunningAt(s: State, on: seq<int>, c: int)
    requires Shape(s, on) && IsCpu(s, c) && s.cpus[c].mode == InProc
    ensures var p := s.cpus[c].cur; IsProc(s, p) && s.procs[p].state == StateAt(s.procs[p].pc)
  {
    hide StateAt, HoldsPt, LockOf;
    Executing(s, on, c);
  }

  lemma {:induction false} PlainThread(s: State, on: seq<int>, c: int, p: int, a: Action)
    requires Inv(s, on) && IsCpu(s, c) && s.cpus[c].mode == InProc && s.cpus[c].cur == p && IsProc(s, p)
    requires ThreadEnabled(s, c, p, a) && (LockAction(a) || OwnAction(a) || a.Swtch?)
    ensures Embryos(ThreadApply(s, c, p, a)) && Families(ThreadApply(s, c, p, a))
  {
    hide ThreadEnabled, ThreadApply, Shape, Embryos, Families, Wakes, StateAt, HoldsPt, EmbryoKept, FamilyKept, OwnProc,
         ProcOk, CpuOk;
    var t := ThreadApply(s, c, p, a);
    RunningAt(s, on, c);
    if OwnAction(a) {
      PlainOwn(s, c, p, a);
      OwnApplied(s, c, p, a);
    } else {
      PlainLock(s, c, p, a);
    }
    forall r | IsProc(s, r)
      ensures EmbryoKept(s.procs[r], t.procs[r])
      ensures a.WaitSleep? || FamilyKept(s.procs[r], t.procs[r], r)
    {
      if r != p {
        PlainOther(s, c, p, a, r);
        KeptSelf(s.procs[r], r);
      }
    }
    EmbryosFrame(s, t);
    if a.WaitSleep? {
      assert StateAt(s.procs[p].pc) == ProcState.Running by {
        WaitsRunning(s, c, p);
      }
      FamiliesWaitSleep(s, c, p);
    } else {
      FamiliesFrame(s, t);
    }
  }

  lemma {:induction false} WaitsRunning(s: State, c: int, p: int)
    requires IsCpu(s, c) && IsProc(s, p) && ThreadEnabled(s, c, p, WaitSleep)
    ensures StateAt(s.procs[p].pc) == ProcState.Running
  {
  }

  /** A wakeup or kill keeps births and families. */
  lemma {:induction false} WakeKept(s: State, c: int, p: int, a: Action, r: int)
    requires IsCpu(s, c) && IsProc(s, p) && ThreadEnabled(s, c, p, a) && (a.WakeAll? || a.DoWakeup? || a.DoKill?)
    requires IsProc(s, r) && s.procs[p].state == StateAt(s.procs[p].pc) && Backed(s.procs[p])
    ensures var q, q' := s.procs[r], ThreadApply(s, c, p, a).procs[r];
            EmbryoKept(q, q') && FamilyKept(q, q', r)
  {
    hide ThreadEnabled, LockApply, ForkApply, OwnProc, OwnCond, TableAfter, TablePc, StateAt, HoldsPt, LockOf;
    TableOwn(s, c, p, a);
    if r != p {
      TableEffect(s, c, p, a, r);
    }
  }

  lemma {:induction false} ExitKept(s: State, c: int, p: int, r: int)
    requires IsCpu(s, c) && IsProc(s, p) && ThreadEnabled(s, c, p, DoExit)
    requires IsProc(s, r) && IsProc(s, s.init) && s.procs[p].state == ProcState.Running
    requires s.procs[r].state == Embryo ==> s.procs[r].parent != p
    ensures EmbryoKept(s.procs[r], ThreadApply(s, c, p, DoExit).procs[r])
  {
    hide LockApply, ForkApply, OwnProc, OwnCond, Exited, LockOf, HoldsPt;
    ExitEffect(s, p, r);
  }

  lemma {:induction false} ReapKept(s: State, c: int, p: int, r: int)
    requires IsCpu(s, c) && IsProc(s, p) && ThreadEnabled(s, c, p, WaitReap)
    requires IsProc(s, r) && s.procs[p].state == ProcState.Running
    ensures EmbryoKept(s.procs[r], ThreadApply(s, c, p, WaitReap).procs[r])
  {
    hide ThreadApply, ThreadEnabled, FirstZombie;
    ReapedProcs(s, c, p);
  }

  /** init never gets into exit (proc.c:181-183). */
  ghost predicate InitStays(s: State) {
    IsProc(s, s.init) && !s.procs[s.init].pc.Exit1?
  }

  lemma {:induction false} NeverExitLock(s: State, c: int, p: int, a: Action)
    requires IsCpu(s, c) && IsProc(s, p) && ThreadEnabled(s, c, p, a) && (LockAction(a) || a.Swtch?)
    requires p == s.init && !s.procs[p].pc.Exit1?
    ensures !ThreadApply(s, c, p, a).procs[p].pc.Exit1?
  {
    hide ForkApply, OwnProc, OwnCond, TableAfter, TablePc, LockOf, HoldsPt, StateAt;
  }

  lemma {:induction false} NeverExitOwn(s: State, c: int, p: int, a: Action)
    requires IsCpu(s, c) && IsProc(s, p) && ThreadEnabled(s, c, p, a) && OwnAction(a) && !s.procs[p].pc.Exit1?
    ensures !ThreadApply(s, c, p, a).procs[p].pc.Exit1?
  {
    hide LockApply, ForkApply, TableAfter, TablePc, FirstZombie, HasChild, OwnCond, LockOf, HoldsPt, StateAt;
  }

  lemma {:induction false} NeverExitTable(s: State, c: int, p: int, a: Action)
    requires IsCpu(s, c) && IsProc(s, p) && ThreadEnabled(s, c, p, a) && TableAction(a) && !s.procs[p].pc.Exit1?
    ensures !ThreadApply(s, c, p, a).procs[p].pc.Exit1?
  {
    hide LockApply, ForkApply, TableAfter, OwnProc, OwnCond, FirstZombie, LockOf, HoldsPt, StateAt;
  }

  lemma {:induction false} NeverExitFork(s: State, c: int, p: int, a: Action)
    requires IsCpu(s, c) && IsProc(s, p) && ThreadEnabled(s, c, p, a) && ForkAction(a) && !s.procs[p].pc.Exit1?
    ensures !ThreadApply(s, c, p, a).procs[p].pc.Exit1?
  {
    hide LockApply, TableAfter, TablePc, OwnProc, OwnCond, FirstUnused, ForkChild, LockOf, HoldsPt, StateAt;
  }

  /** init never gets to the end of exit. */
  lemma {:induction false} NeverExit(s: State, c: int, p: int, a: Action)
    requires IsCpu(s, c) && IsProc(s, p) && ThreadEnabled(s, c, p, a) && !SchedAction(a)
    requires p == s.init && !s.procs[p].pc.Exit1?
    ensures !ThreadApply(s, c, p, a).procs[p].pc.Exit1?
  {
    hide ThreadEnabled, ThreadApply;
    if LockAction(a) || a.Swtch? {
      NeverExitLock(s, c, p, a);
    } else if OwnAction(a) {
      NeverExitOwn(s, c, p, a);
    } else if TableAction(a) {
      NeverExitTable(s, c, p, a);
    } else {
      NeverExitFork(s, c, p, a);
    }
  }

  lemma {:induction false} InitStaysThread(s: State, c: int, p: int, a: Action)
    requires InitStays(s) && IsCpu(s, c) && IsProc(s, p) && ThreadEnabled(s, c, p, a) && !SchedAction(a)
    requires ForkAction(a) && !a.ForkAlloc? ==> EmbryoOk(s, p)
    ensures InitStays(ThreadApply(s, c, p, a))
  {
    hide ThreadEnabled, ThreadApply;
    if p == s.init {
      NeverExit(s, c, p, a);
    } else {
      OtherMove(s, c, p, a, s.init);
    }
  }

  lemma {:induction false} TableThread(s: State, on: seq<int>, c: int, p: int, a: Action)
    requires Inv(s, on) && IsCpu(s, c) && s.cpus[c].mode == InProc && s.cpus[c].cur == p && IsProc(s, p)
    requires ThreadEnabled(s, c, p, a) && (a.WakeAll? || a.DoWakeup? || a.DoKill?)
    ensures Embryos(ThreadApply(s, c, p, a)) && Families(ThreadApply(s, c, p, a))
  {
    hide ThreadApply, ThreadEnabled, Shape, Embryos, Families, Wakes, StateAt, HoldsPt, EmbryoKept, FamilyKept;
    var t := ThreadApply(s, c, p, a);
    Executing(s, on, c);
    forall r | IsProc(s, r)
      ensures EmbryoKept(s.procs[r], t.procs[r]) && FamilyKept(s.procs[r], t.procs[r], r)
    {
      WakeKept(s, c, p, a, r);
    }
    EmbryosFrame(s, t);
    FamiliesFrame(s, t);
  }

  lemma {:induction false} ExitThread(s: State, on: seq<int>, c: int, p: int)
    requires Inv(s, on) && IsCpu(s, c) && s.cpus[c].mode == InProc && s.cpus[c].cur == p && IsProc(s, p)
    requires ThreadEnabled(s, c, p, DoExit)
    ensures Embryos(ThreadApply(s, c, p, DoExit)) && Families(ThreadApply(s, c, p, DoExit))
  {
    hide ThreadApply, ThreadEnabled, Shape, Embryos, Families, Wakes, EmbryoKept, Exited;
    var t := ThreadApply(s, c, p, DoExit);
    Executing(s, on, c);
    ExitProcs(s, c, p);
    forall r | IsProc(s, r)
      ensures EmbryoKept(s.procs[r], t.procs[r])
    {
      NotInExit(s, p, r);
      ExitKept(s, c, p, r);
    }
    EmbryosFrame(s, t);
    FamiliesExited(s, t, p);
  }

  lemma {:induction false} ExitProcs(s: State, c: int, p: int)
    requires IsCpu(s, c) && IsProc(s, p) && ThreadEnabled(s, c, p, DoExit)
    ensures s.procs[p].pc.Exit1? && StateAt(s.procs[p].pc) == ProcState.Running
    ensures var ps, t := Exited(s.procs, p, s.init), ThreadApply(s, c, p, DoExit);
            t.procs == ps[p := ps[p].(pc := t.procs[p].pc)]
  {
    hide LockApply, OwnProc, OwnCond, ForkApply, Exited;
  }

  /** A process that exits is not building another. */
  lemma {:induction false} NotInExit(s: State, p: int, r: int)
    requires Embryos(s) && Families(s) && IsProc(s, p) && IsProc(s, r) && s.procs[p].pc.Exit1?
    ensures IsProc(s, s.init) && (s.procs[r].state == Embryo ==> s.procs[r].parent != p)
  {
    assert InHands(s, r);
  }

  lemma {:induction false} ReapThread(s: State, on: seq<int>, c: int, p: int)
    requires Inv(s, on) && IsCpu(s, c) && s.cpus[c].mode == InProc && s.cpus[c].cur == p && IsProc(s, p)
    requires ThreadEnabled(s, c, p, WaitReap)
    ensures Embryos(ThreadApply(s, c, p, WaitReap)) && Families(ThreadApply(s, c, p, WaitReap))
  {
    hide ThreadApply, Shape, Embryos, Families, Wakes, EmbryoKept, FirstZombie;
    var t := ThreadApply(s, c, p, WaitReap);
    Executing(s, on, c);
    forall r | IsProc(s, r)
      ensures EmbryoKept(s.procs[r], t.procs[r])
    {
      ReapKept(s, c, p, r);
    }
    EmbryosFrame(s, t);
    FamiliesReap(s, c, p);
  }

  lemma {:induction false} ForkThread(s: State, on: seq<int>, c: int, p: int, a: Action)
    requires Inv(s, on) && IsCpu(s, c) && s.cpus[c].mode == InProc && s.cpus[c].cur == p && IsProc(s, p)
    requires ThreadEnabled(s, c, p, a) && ForkAction(a)
    ensures Embryos(ThreadApply(s, c, p, a)) && Families(ThreadApply(s, c, p, a))
  {
    hide ThreadApply, Shape, Families, Wakes, FirstUnused;
    Executing(s, on, c);
    if a.ForkAlloc? {
      EmbryosForkAlloc(s, on, c, p);
      FamiliesForkAlloc(s, c, p);
    } else {
      assert EmbryoOk(s, p);
      EmbryoParked(s, on, Building(s.procs[p].pc));
      EmbryosForkStep(s, c, p, a);
      FamiliesForkStep(s, c, p, a);
    }
  }

  lemma {:induction false} ThreadInv(s: State, on: seq<int>, c: int, p: int, a: Action)
    requires Inv(s, on) && IsCpu(s, c) && s.cpus[c].mode == InProc && s.cpus[c].cur == p && IsProc(s, p)
    requires ThreadEnabled(s, c, p, a) && !SchedAction(a)
    ensures Inv(ThreadApply(s, c, p, a), on)
  {
    assert EmbryoOk(s, p);
    hide ThreadApply, ThreadEnabled, Shape, Families, Wakes, Embryos, EmbryoOk, InitStays;
    ShapeThread(s, on, c, p, a);
    InitStaysThread(s, c, p, a);
    if a.WakeAll? {
      WakesAll(s, on, c, p);
    } else if a.Post? {
      WakesPost(s, on, c, p);
    } else {
      WakesThread(s, on, c, p, a);
    }
    if LockAction(a) || OwnAction(a) || a.Swtch? {
      PlainThread(s, on, c, p, a);
    } else if ForkAction(a) {
      ForkThread(s, on, c, p, a);
    } else if a.DoExit? {
      ExitThread(s, on, c, p);
    } else if a.WaitReap? {
      ReapThread(s, on, c, p);
    } else {
      TableThread(s, on, c, p, a);
    }
  }

  lemma {:induction false} SchedEffect(s: State, c: int, a: Action, r: int)
    requires Enabled(s, c, a) && SchedAction(a) && IsProc(s, r)
    ensures var q, q' := s.procs[r], SchedApply(s, c, a).procs[r];
            EmbryoKept(q, q') && FamilyKept(q, q', r) && q'.pc == q.pc && DozeKept(q, q')
  {
    hide ThreadEnabled;
  }

  lemma {:induction false} SchedLockKept(s: State, c: int, a: Action, l: int)
    requires Enabled(s, c, a) && SchedAction(a) && IsLock(s, l)
    ensures LockKept(s, SchedApply(s, c, a), l)
  {
    hide ThreadEnabled;
  }

  lemma {:induction false} SchedOthers(s: State, on: seq<int>, c: int, a: Action)
    requires Inv(s, on) && Enabled(s, c, a) && SchedAction(a)
    ensures var t := SchedApply(s, c, a); InitStays(t) && Embryos(t) && Families(t) && Wakes(t)
  {
    hide SchedApply, Enabled, Shape, Embryos, Families, Wakes, EmbryoKept, FamilyKept, DozeKept, LockKept;
    var t := SchedApply(s, c, a);
    forall r | IsProc(s, r)
      ensures EmbryoKept(s.procs[r], t.procs[r]) && FamilyKept(s.procs[r], t.procs[r], r)
      ensures t.procs[r].pc == s.procs[r].pc && DozeKept(s.procs[r], t.procs[r])
    {
      SchedEffect(s, c, a, r);
    }
    forall l | IsLock(s, l)
      ensures LockKept(s, t, l)
    {
      SchedLockKept(s, c, a, l);
    }
    EmbryosFrame(s, t);
    FamiliesFrame(s, t);
    WakesFrame(s, t);
  }

  /** Every step keeps the invariant. */
  lemma {:induction false} StepInv(s: State, on: seq<int>, c: int, a: Action) returns (on': seq<int>)
    requires Inv(s, on) && Enabled(s, c, a)
    ensures Inv(Apply(s, c, a), on')
  {
    if SchedAction(a) {
      assert |on| == |s.procs|;
      on' := SchedOn(s, on, c, a);
      hide SchedApply, Shape, Families, Wakes, Embryos, InitStays;
      SchedOthers(s, on, c, a);
      if a.IntrWake? {
        ShapeIntrWake(s, on, c, a);
      } else if a.SchedPick? || a.SchedSwitch? || a.SchedReturn? {
        ShapeSchedSwitch(s, on, c, a);
      } else {
        ShapeSchedLock(s, on, c, a);
      }
    } else {
      on' := on;
      hide ThreadApply, ThreadEnabled, Inv;
      ThreadInv(s, on, c, s.cpus[c].cur, a);
    }
  }

  lemma {:induction false} InitInv(s: State) returns (on: seq<int>)
    requires Init(s)
    ensures Inv(s, on)
  {
    on := seq(|s.procs|, i => NONE);
    forall p | IsProc(s, p)
      ensures ProcOk(s, on, p) && EmbryoOk(s, p) && InHands(s, p) && FamilyOk(s, p) && WakeOk(s, p)
    {
    }
  }

  // ---- what holds in every state of every run ----

  lemma {:induction false} NextInv(s: State, t: State, on: seq<int>) returns (on': seq<int>)
    requires Inv(s, on) && Next(s, t)
    ensures Inv(t, on')
  {
    hide Inv, Enabled, Apply;
    var c, a :| Enabled(s, c, a) && t == Apply(s, c, a);
    on' := StepInv(s, on, c, a);
  }

  lemma {:induction false} RunInv(tr: seq<State>, i: nat) returns (on: seq<int>)
    requires Run(tr) && i < |tr|
    ensures Inv(tr[i], on)
  {
    hide Inv, Next, Init;
    if i == 0 {
      on := InitInv(tr[0]);
    } else {
      var before := RunInv(tr, i - 1);
      assert Next(tr[i - 1], tr[i - 1 + 1]);
      on := NextInv(tr[i - 1], tr[i], before);
    }
  }

  ghost predicate Current(s: State, c: int, p: int) {
    IsCpu(s, c) && s.cpus[c].cur == p
  }

  /** Whenever ptable.lock is free, a process is RUNNING if and only if exactly one CPU has it as
      its current process. */
  lemma {:induction false} RunningIffCurrent(tr: seq<State>, i: nat, p: int)
    requires Run(tr) && i < |tr| && tr[i].pt == NONE && IsProc(tr[i], p)
    ensures tr[i].procs[p].state == ProcState.Running <==>
              exists c :: Current(tr[i], c, p) && forall d :: Current(tr[i], d, p) ==> d == c
  {
    var on := RunInv(tr, i);
    var s := tr[i];
    assert ProcOk(s, on, p);
    forall d | Current(s, d, p)
      ensures on[p] == d && s.cpus[d].mode == InProc
    {
      assert CpuOk(s, on, d);
    }
    if on[p] != NONE {
      assert Current(s, on[p], p);
      assert CpuOk(s, on, on[p]);
    }
  }

  /** No CPU ever has the same current process as another, with the lock held or not. */
  lemma {:induction false} CurrentUnique(tr: seq<State>, i: nat, c: int, d: int)
    requires Run(tr) && i < |tr| && IsCpu(tr[i], c) && IsCpu(tr[i], d)
    requires tr[i].cpus[c].cur == tr[i].cpus[d].cur != NONE
    ensures c == d
  {
    var on := RunInv(tr, i);
    assert CpuOk(tr[i], on, c) && CpuOk(tr[i], on, d);
  }

  /** The kernel stack a CPU executes on and the page table it uses are never freed under it. */
  lemma {:induction false} InUseNotFreed(tr: seq<State>, i: nat, c: int)
    requires Run(tr) && i < |tr| && IsCpu(tr[i], c)
    ensures var s := tr[i];
            && (s.cpus[c].stack != NONE ==> IsProc(s, s.cpus[c].stack) && s.procs[s.cpus[c].stack].kstack)
            && (s.cpus[c].cr3 != NONE ==> IsProc(s, s.cpus[c].cr3) && s.procs[s.cpus[c].cr3].pgdir)
  {
    var on := RunInv(tr, i);
    assert CpuOk(tr[i], on, c);
    if tr[i].cpus[c].cur != NONE {
      assert ProcOk(tr[i], on, tr[i].cpus[c].cur);
    }
  }

  /** No lost wakeup: with both locks free, nobody sleeps on a channel whose condition holds. */
  lemma {:induction false} NoLostWakeup(tr: seq<State>, i: nat, l: nat, p: int)
    requires Run(tr) && i < |tr| && IsLock(tr[i], l) && IsProc(tr[i], p)
    requires tr[i].pt == NONE && tr[i].lk[l] == NONE && tr[i].cond[l]
    ensures !(tr[i].procs[p].state == Sleeping && tr[i].procs[p].chan == OnLock(l))
  {
    var on := RunInv(tr, i);
    assert ProcOk(tr[i], on, p) && WakeOk(tr[i], p);
  }

  /** No parent asleep in wait has a zombie child, whoever holds the locks; and every zombie has a
      parent that is alive to reap it. */
  lemma {:induction false} ZombieIsReaped(tr: seq<State>, i: nat, p: int)
    requires Run(tr) && i < |tr| && IsProc(tr[i], p) && tr[i].procs[p].state == Zombie
    ensures var s, up := tr[i], tr[i].procs[p].parent;
            && IsProc(s, up) && Alive(s.procs[up].state)
            && !(s.procs[up].state == Sleeping && s.procs[up].chan == OnProc(up))
  {
    var on := RunInv(tr, i);
    assert FamilyOk(tr[i], p);
  }

  /** sched never panics (proc.c:314-328): at every call the CPU holds ptable.lock and no other lock,
      the process has changed its state, and interrupts are off. */
  lemma {:induction false} SchedNeverPanics(tr: seq<State>, i: nat, c: int)
    requires Run(tr) && i < |tr| && IsCpu(tr[i], c) && tr[i].cpus[c].mode == InProc
    ensures var s, p := tr[i], tr[i].cpus[c].cur;
            IsProc(s, p) && (Off(s.procs[p].pc) ==>
              s.pt == c && s.cpus[c].ncli == 1 && s.procs[p].state != ProcState.Running && !s.cpus[c].intr)
  {
    hide Run, Shape, Embryos, Families, Wakes, Off, StateAt;
    var on := RunInv(tr, i);
    OffHolds(tr[i], on, c);
  }

  lemma {:induction false} OffHolds(s: State, on: seq<int>, c: int)
    requires Shape(s, on) && IsCpu(s, c) && s.cpus[c].mode == InProc
    ensures var p := s.cpus[c].cur;
            IsProc(s, p) && (Off(s.procs[p].pc) ==>
              s.pt == c && s.cpus[c].ncli == 1 && s.procs[p].state != ProcState.Running && !s.cpus[c].intr)
  {
    Executing(s, on, c);
    hide Shape;
  }

  /** acquire never finds the lock held by its own CPU, and release and popcli always find it held
      there, with interrupts off (spinlock.c:27, 45, 113-119). */
  lemma {:induction false} LocksNeverPanic(tr: seq<State>, i: nat, c: int, l: nat)
    requires Run(tr) && i < |tr| && IsCpu(tr[i], c) && tr[i].cpus[c].mode == InProc && IsLock(tr[i], l)
    ensures var s, p := tr[i], tr[i].cpus[c].cur;
            && IsProc(s, p)
            && (var pc := s.procs[p].pc;
                && (pc.Slp1? || pc.Post1? || !(HoldsPt(pc) || LockOf(pc) != NONE) ==> s.pt != c)
                && (pc.User? || pc == SlpRe(l) ==> s.lk[l] != c)
                && (CanRelease(pc) ==> s.pt == c && s.cpus[c].ncli > 0 && !s.cpus[c].intr)
                && (pc == Crit(l) || pc == Slp2(l) ==> s.lk[l] == c && s.cpus[c].ncli > 0 && !s.cpus[c].intr))
  {
    hide Run, Shape, Embryos, Families, Wakes, HoldsPt, LockOf, CanRelease;
    var on := RunInv(tr, i);
    LocksAt(tr[i], on, c, l);
  }

  lemma {:induction false} LocksAt(s: State, on: seq<int>, c: int, l: nat)
    requires Shape(s, on) && IsCpu(s, c) && s.cpus[c].mode == InProc && IsLock(s, l)
    ensures var p := s.cpus[c].cur;
            && IsProc(s, p)
            && (var pc := s.procs[p].pc;
                && (pc.Slp1? || pc.Post1? || !(HoldsPt(pc) || LockOf(pc) != NONE) ==> s.pt != c)
                && (pc.User? || pc == SlpRe(l) ==> s.lk[l] != c)
                && (CanRelease(pc) ==> s.pt == c && s.cpus[c].ncli > 0 && !s.cpus[c].intr)
                && (pc == Crit(l) || pc == Slp2(l) ==> s.lk[l] == c && s.cpus[c].ncli > 0 && !s.cpus[c].intr))
  {
    Executing(s, on, c);
    assert LockOk(s, l);
    hide Shape;
  }
}
