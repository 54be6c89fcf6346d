/** The redo log of kernel/log.c as sequences of sector writes, and what a crash between any two
    of them leaves behind. */
module LogTrace {
  import opened Disk
  import opened Param

  /** The log region: a header block at `start`, then size - 1 log blocks. */
  datatype Layout = Layout(start: nat, size: nat) {
    predicate Contains(s: nat) {
      start <= s < start + size
    }

    predicate Fits(disk: Sectors) {
      0 < size && start + size <= |disk|
    }

    /** How many blocks one transaction may log (log.c:169). */
    function Capacity(): int {
      if LOGSIZE < size - 1 then LOGSIZE else size - 1
    }
  }

  /** A sector a transaction may log: on the disk and outside the log region. The latter is a
      hypothesis about the image; the bitmap does not enforce it. */
  predicate Home(l: Layout, disk: Sectors, s: int) {
    0 <= s < |disk| && !l.Contains(s)
  }

  // ---- the header block (log.c:36-39): word 0 is n, words 1.. the sectors ----

  predicate IsHeader(l: Layout, disk: Sectors, b: Block) {
    && 0 <= b[0] <= l.Capacity()
    && forall i :: 1 <= i <= b[0] ==> Home(l, disk, b[i])
  }

  function Listed(l: Layout, disk: Sectors, b: Block): (secs: seq<nat>)
    requires IsHeader(l, disk, b)
    ensures |secs| == b[0]
  {
    seq(b[0], i requires 0 <= i < b[0] => assert Home(l, disk, b[1 + i]); b[1 + i])
  }

  /** write_head overwrites n and the first n sector words and keeps the rest (log.c:112-116). */
  function PackHeader(b: Block, secs: seq<nat>): Block
    requires |secs| <= LOGSIZE
  {
    [|secs|] + secs + b[1 + |secs|..]
  }

  predicate Ready(l: Layout, disk: Sectors) {
    l.Fits(disk) && IsHeader(l, disk, disk[l.start])
  }

  lemma {:induction false} PackedHeader(l: Layout, disk: Sectors, b: Block, secs: seq<nat>)
    requires |secs| <= l.Capacity() && forall i :: 0 <= i < |secs| ==> Home(l, disk, secs[i])
    ensures IsHeader(l, disk, PackHeader(b, secs)) && Listed(l, disk, PackHeader(b, secs)) == secs
  {
    var p := PackHeader(b, secs);
    assert forall i :: 1 <= i <= |secs| ==> p[i] == secs[i - 1];
  }

  // ---- installing (log.c:76-87) ----

  function Installs(secs: seq<nat>, blocks: seq<Block>): (ws: seq<Write>)
    requires |secs| == |blocks|
    ensures |ws| == |secs|
  {
    seq(|secs|, i requires 0 <= i < |secs| => Write(secs[i], blocks[i]))
  }

  function LogBlocks(l: Layout, disk: Sectors, n: nat): (r: seq<Block>)
    requires l.Fits(disk) && n < l.size
    ensures |r| == n
  {
    disk[l.start + 1..l.start + 1 + n]
  }

  /** All writes of a recovery that runs to its end (log.c:123-128). */
  function RecoveryWrites(l: Layout, disk: Sectors): seq<Write>
    requires Ready(l, disk)
  {
    var secs := Listed(l, disk, disk[l.start]);
    Installs(secs, LogBlocks(l, disk, |secs|)) + [Write(l.start, PackHeader(disk[l.start], []))]
  }

  function Recovered(l: Layout, disk: Sectors): Sectors
    requires Ready(l, disk)
  {
    Apply(disk, RecoveryWrites(l, disk))
  }

  ghost predicate SameHome(l: Layout, d: Sectors, e: Sectors) {
    |d| == |e| && forall s :: 0 <= s < |d| && !l.Contains(s) ==> d[s] == e[s]
  }

  ghost predicate SameLog(l: Layout, d: Sectors, e: Sectors) {
    |d| == |e| && forall s :: 0 <= s < |d| && l.Contains(s) ==> d[s] == e[s]
  }

  /** An installation decides the content of listed sectors, whatever was there before. */
  lemma {:induction false} InstallDecides(d: Sectors, e: Sectors, secs: seq<nat>, blocks: seq<Block>, s: nat)
    requires |secs| == |blocks| && |d| == |e| && s < |d| && s in secs
    ensures Apply(d, Installs(secs, blocks))[s] == Apply(e, Installs(secs, blocks))[s]
    decreases |secs|
  {
    var n := |secs| - 1;
    InstallsFront(secs, blocks);
    if s != secs[n] {
      assert secs == secs[..n] + [secs[n]];
      InstallDecides(d, e, secs[..n], blocks[..n], s);
    }
  }

  lemma {:induction false} InstallsFront(secs: seq<nat>, blocks: seq<Block>)
    requires |secs| == |blocks| > 0
    ensures var n := |secs| - 1;
            Installs(secs, blocks)[..n] == Installs(secs[..n], blocks[..n])
            && Installs(secs, blocks)[n] == Write(secs[n], blocks[n])
  {
  }

  lemma {:induction false} InstallsElsewhere(disk: Sectors, secs: seq<nat>, blocks: seq<Block>, s: nat)
    requires |secs| == |blocks| && s < |disk| && s !in secs
    ensures Apply(disk, Installs(secs, blocks))[s] == disk[s]
  {
    ApplyElsewhere(disk, Installs(secs, blocks), s);
  }

  /** A completed recovery: home sectors hold the listed blocks, the header is cleared. */
  lemma {:induction false} RecoveredHome(l: Layout, disk: Sectors)
    requires Ready(l, disk)
    ensures var secs := Listed(l, disk, disk[l.start]);
            SameHome(l, Recovered(l, disk), Apply(disk, Installs(secs, LogBlocks(l, disk, |secs|))))
    ensures Ready(l, Recovered(l, disk)) && Recovered(l, disk)[l.start][0] == 0
  {
    var secs := Listed(l, disk, disk[l.start]);
    var ins, clear := Installs(secs, LogBlocks(l, disk, |secs|)), Write(l.start, PackHeader(disk[l.start], []));
    assert RecoveryWrites(l, disk) == ins + [clear];
    ApplyConcat(disk, ins, [clear]);
    ApplyOne(Apply(disk, ins), clear);
  }

  lemma {:induction false} ApplyOne(disk: Sectors, w: Write)
    ensures Apply(disk, [w]) == if w.sector < |disk| then disk[w.sector := w.data] else disk
  {
    assert [w][..0] == [];
    assert Apply(disk, []) == disk;
  }

  /** Two disks with the same log recover alike if they differ only on listed sectors. */
  lemma {:induction false} RecoverAlike(l: Layout, d: Sectors, e: Sectors)
    requires Ready(l, d) && SameLog(l, d, e)
    requires var secs := Listed(l, d, d[l.start]);
             forall s :: 0 <= s < |d| && !l.Contains(s) && s !in secs ==> d[s] == e[s]
    ensures Ready(l, e) && SameHome(l, Recovered(l, e), Recovered(l, d))
  {
    assert d[l.start] == e[l.start];
    assert Ready(l, e);
    var secs := Listed(l, d, d[l.start]);
    assert Listed(l, e, e[l.start]) == secs;
    var blocks := LogBlocks(l, d, |secs|);
    assert LogBlocks(l, e, |secs|) == blocks by {
      assert forall k :: l.start < k <= l.start + |secs| ==> l.Contains(k) && d[k] == e[k];
    }
    RecoveredHome(l, d);
    RecoveredHome(l, e);
    forall s | 0 <= s < |d| && !l.Contains(s)
      ensures Apply(d, Installs(secs, blocks))[s] == Apply(e, Installs(secs, blocks))[s]
    {
      if s in secs {
        InstallDecides(d, e, secs, blocks, s);
      } else {
        InstallsElsewhere(d, secs, blocks, s);
        InstallsElsewhere(e, secs, blocks, s);
      }
    }
  }

  /** A crash after any prefix of a recovery's writes loses nothing: recovering again gives the
      same home sectors. */
  lemma {:induction false} RecoveryCrash(l: Layout, disk: Sectors, j: nat)
    requires Ready(l, disk) && j <= |RecoveryWrites(l, disk)|
    ensures var d := Apply(disk, RecoveryWrites(l, disk)[..j]);
            Ready(l, d) && SameHome(l, Recovered(l, d), Recovered(l, disk))
  {
    var ws := RecoveryWrites(l, disk);
    var secs := Listed(l, disk, disk[l.start]);
    var blocks := LogBlocks(l, disk, |secs|);
    if j == |ws| {
      assert ws[..j] == ws;
      RecoveredHome(l, disk);
      CleanRecovery(l, Recovered(l, disk));
    } else {
      assert ws[..j] == Installs(secs[..j], blocks[..j]);
      var d := Apply(disk, ws[..j]);
      forall s | 0 <= s < |disk| && (l.Contains(s) || s !in secs)
        ensures d[s] == disk[s]
      {
        if l.Contains(s) {
          HomesOutside(l, disk, disk[l.start], s);
        }
        InstallsElsewhere(disk, secs[..j], blocks[..j], s);
      }
      RecoverAlike(l, disk, d);
    }
  }

  lemma {:induction false} HomesOutside(l: Layout, disk: Sectors, b: Block, s: nat)
    requires IsHeader(l, disk, b) && l.Contains(s)
    ensures s !in Listed(l, disk, b)
  {
    var secs := Listed(l, disk, b);
    forall i | 0 <= i < |secs|
      ensures secs[i] != s
    {
      assert Home(l, disk, b[1 + i]);
    }
  }

  /** Recovering a disk whose header lists nothing changes no home sector. */
  lemma {:induction false} CleanRecovery(l: Layout, disk: Sectors)
    requires Ready(l, disk) && disk[l.start][0] == 0
    ensures SameHome(l, Recovered(l, disk), disk)
  {
    RecoveredHome(l, disk);
    var secs := Listed(l, disk, disk[l.start]);
    assert Installs(secs, LogBlocks(l, disk, |secs|)) == [];
  }

  /** Recoveries that crash: the k-th one stops after js[k] of its writes. */
  function AfterCrashes(l: Layout, disk: Sectors, js: seq<nat>): (r: Sectors)
    requires Ready(l, disk)
    ensures Ready(l, r)
    decreases |js|
  {
    if js == [] then disk
    else
      var ws := RecoveryWrites(l, disk);
      var j := if js[0] <= |ws| then js[0] else |ws|;
      RecoveryCrash(l, disk, j);
      AfterCrashes(l, Apply(disk, ws[..j]), js[1..])
  }

  /** However often recovery itself is cut short, the recovery that completes gives the home
      sectors an undisturbed one would have given. */
  lemma {:induction false} RecoverySurvivesCrashes(l: Layout, disk: Sectors, js: seq<nat>)
    requires Ready(l, disk)
    ensures SameHome(l, Recovered(l, AfterCrashes(l, disk, js)), Recovered(l, disk))
    decreases |js|
  {
    if js != [] {
      var ws := RecoveryWrites(l, disk);
      var j := if js[0] <= |ws| then js[0] else |ws|;
      RecoveryCrash(l, disk, j);
      RecoverySurvivesCrashes(l, Apply(disk, ws[..j]), js[1..]);
    }
  }

  // ---- a transaction: log_write for each entry, then commit_trans ----

  datatype Entry = Entry(sector: nat, data: Block)

  /** The sectors of a transaction in the order they were first logged (log absorption). */
  function Logged(tx: seq<Entry>): (r: seq<nat>)
    ensures |r| <= |tx|
  {
    if tx == [] then []
    else
      var n := |tx| - 1;
      var r, s := Logged(tx[..n]), tx[n].sector;
      if s in r then r else r + [s]
  }

  lemma {:induction false} LoggedDistinct(tx: seq<Entry>)
    ensures forall i, j :: 0 <= i < j < |Logged(tx)| ==> Logged(tx)[i] != Logged(tx)[j]
  {
    if tx != [] {
      LoggedDistinct(tx[..|tx| - 1]);
    }
  }

  /** The index at which log_write puts sector s (log.c:177-183). */
  function Slot(secs: seq<nat>, s: nat): (i: nat)
    ensures i <= |secs| && s !in secs[..i] && (i < |secs| ==> secs[i] == s)
    ensures s in secs <==> i < |secs|
  {
    if secs == [] then 0 else if secs[0] == s then 0 else
      assert secs == [secs[0]] + secs[1..];
      1 + Slot(secs[1..], s)
  }

  /** The data last logged for each sector. */
  function Pending(tx: seq<Entry>): (m: map<nat, Block>)
    ensures forall s :: s in m <==> s in Logged(tx)
  {
    if tx == [] then map[]
    else
      var n := |tx| - 1;
      Pending(tx[..n])[tx[n].sector := tx[n].data]
  }

  function LogWrites(l: Layout, tx: seq<Entry>): (ws: seq<Write>)
    ensures |ws| == |tx|
  {
    if tx == [] then []
    else
      var n := |tx| - 1;
      var i := Slot(Logged(tx[..n]), tx[n].sector);
      LogWrites(l, tx[..n]) + [Write(l.start + 1 + i, tx[n].data)]
  }

  function Contents(tx: seq<Entry>): (r: seq<Block>)
    ensures |r| == |Logged(tx)|
  {
    seq(|Logged(tx)|, i requires 0 <= i < |Logged(tx)| => Pending(tx)[Logged(tx)[i]])
  }

  /** A transaction that log_write accepts: home sectors only, and no more than fit. */
  ghost predicate Acceptable(l: Layout, disk: Sectors, tx: seq<Entry>) {
    |Logged(tx)| <= l.Capacity() && forall e :: e in tx ==> Home(l, disk, e.sector)
  }

  lemma {:induction false} LogWritesPrefix(l: Layout, tx: seq<Entry>, k: nat)
    requires k <= |tx|
    ensures LogWrites(l, tx)[..k] == LogWrites(l, tx[..k])
    ensures Logged(tx[..k]) <= Logged(tx)
    decreases |tx|
  {
    if k < |tx| {
      var n := |tx| - 1;
      LogWritesPrefix(l, tx[..n], k);
      assert tx[..n][..k] == tx[..k];
    } else {
      assert tx[..k] == tx;
    }
  }

  lemma {:induction false} AcceptablePrefix(l: Layout, disk: Sectors, tx: seq<Entry>, k: nat)
    requires Acceptable(l, disk, tx) && k <= |tx|
    ensures Acceptable(l, disk, tx[..k])
  {
    LogWritesPrefix(l, tx, k);
  }

  /** Before the commit record is written, only log blocks have changed, and each listed sector's
      block holds the data last logged for it. */
  lemma {:induction false} LogPhase(l: Layout, disk: Sectors, tx: seq<Entry>)
    requires l.Fits(disk) && Acceptable(l, disk, tx)
    ensures var d := Apply(disk, LogWrites(l, tx));
            && (forall s :: 0 <= s < |disk| && !(l.start < s < l.start + l.size) ==> d[s] == disk[s])
            && LogBlocks(l, d, |Logged(tx)|) == Contents(tx)
    decreases |tx|
  {
    if tx != [] {
      var n := |tx| - 1;
      var tx', e := tx[..n], tx[n];
      AcceptablePrefix(l, disk, tx, n);
      LogPhase(l, disk, tx');
      var i := Slot(Logged(tx'), e.sector);
      var w := Write(l.start + 1 + i, e.data);
      SlotRoom(tx);
      LogWritesLast(l, tx);
      hide Apply, LogWrites, Logged, Contents, LogBlocks, Slot;
      var d', d := Apply(disk, LogWrites(l, tx')), Apply(disk, LogWrites(l, tx));
      ApplyConcat(disk, LogWrites(l, tx'), [w]);
      ApplyOne(d', w);
      assert d == d'[w.sector := w.data];
      LogBlocksStep(l, d', tx, d);
    }
  }

  lemma {:induction false} LogWritesLast(l: Layout, tx: seq<Entry>)
    requires tx != []
    ensures var n := |tx| - 1;
            LogWrites(l, tx) == LogWrites(l, tx[..n])
                                + [Write(l.start + 1 + Slot(Logged(tx[..n]), tx[n].sector), tx[n].data)]
  {
    hide Slot, Logged;
  }

  lemma {:induction false} SlotRoom(tx: seq<Entry>)
    requires tx != []
    ensures var n := |tx| - 1; Slot(Logged(tx[..n]), tx[n].sector) < |Logged(tx)|
    ensures var n := |tx| - 1; Logged(tx)[Slot(Logged(tx[..n]), tx[n].sector)] == tx[n].sector
    ensures forall k :: 0 <= k < |Logged(tx)| && k != Slot(Logged(tx[..|tx| - 1]), tx[|tx| - 1].sector) ==>
              k < |Logged(tx[..|tx| - 1])| && Logged(tx)[k] == Logged(tx[..|tx| - 1])[k]
  {
    hide Slot;
  }

  lemma {:induction false} PendingStep(tx: seq<Entry>)
    requires tx != []
    ensures var n := |tx| - 1; Pending(tx) == Pending(tx[..n])[tx[n].sector := tx[n].data]
  {
  }

  lemma {:induction false} LogBlocksStep(l: Layout, d': Sectors, tx: seq<Entry>, d: Sectors)
    requires tx != [] && l.Fits(d') && |Logged(tx)| < l.size
    requires var n := |tx| - 1; |Logged(tx[..n])| < l.size && LogBlocks(l, d', |Logged(tx[..n])|) == Contents(tx[..n])
    requires var n := |tx| - 1; var i := Slot(Logged(tx[..n]), tx[n].sector);
             l.start + 1 + i < |d'| && d == d'[l.start + 1 + i := tx[n].data]
    ensures LogBlocks(l, d, |Logged(tx)|) == Contents(tx)
  {
    hide Logged, Slot, Pending;
    var n := |tx| - 1;
    var r, r' := Logged(tx), Logged(tx[..n]);
    var i := Slot(r', tx[n].sector);
    SlotRoom(tx);
    LoggedDistinct(tx);
    PendingStep(tx);
    forall k | 0 <= k < |r|
      ensures d[l.start + 1 + k] == Pending(tx)[r[k]]
    {
      if k != i {
        assert k < |r'| && r[k] == r'[k] && r[k] != tx[n].sector;
        assert LogBlocks(l, d', |r'|)[k] == d'[l.start + 1 + k];
        assert Contents(tx[..n])[k] == Pending(tx[..n])[r'[k]];
      }
    }
  }

  /** commit_trans (log.c:143-149): commit record, installation, cleared record. */
  function CommitWrites(l: Layout, header: Block, secs: seq<nat>, blocks: seq<Block>): seq<Write>
    requires |secs| == |blocks| <= LOGSIZE
  {
    [Write(l.start, PackHeader(header, secs))] + Installs(secs, blocks)
    + [Write(l.start, PackHeader(PackHeader(header, secs), []))]
  }

  /** All sector writes of a transaction, in order. */
  function TransWrites(l: Layout, disk: Sectors, tx: seq<Entry>): (ws: seq<Write>)
    requires l.Fits(disk) && Acceptable(l, disk, tx)
    ensures |ws| >= |tx|
  {
    LogWrites(l, tx) + if tx == [] then [] else CommitWrites(l, disk[l.start], Logged(tx), Contents(tx))
  }

  function Overlay(disk: Sectors, m: map<nat, Block>): (r: Sectors)
    ensures |r| == |disk|
  {
    seq(|disk|, s requires 0 <= s < |disk| => if s in m then m[s] else disk[s])
  }

  lemma {:induction false} InstallGives(disk: Sectors, secs: seq<nat>, blocks: seq<Block>, i: nat)
    requires |secs| == |blocks| && i < |secs| && secs[i] < |disk|
    requires forall j, k :: 0 <= j < k < |secs| ==> secs[j] != secs[k]
    ensures Apply(disk, Installs(secs, blocks))[secs[i]] == blocks[i]
    decreases |secs|
  {
    InstallsFront(secs, blocks);
    if i < |secs| - 1 {
      InstallGives(disk, secs[..|secs| - 1], blocks[..|secs| - 1], i);
    }
  }

  /** Once the commit record is on disk, recovery yields the transaction's outcome. */
  lemma {:induction false} CommittedRecovers(l: Layout, e: Sectors, tx: seq<Entry>)
    requires Ready(l, e) && Acceptable(l, e, tx)
    requires Listed(l, e, e[l.start]) == Logged(tx) && LogBlocks(l, e, |Logged(tx)|) == Contents(tx)
    ensures SameHome(l, Recovered(l, e), Overlay(e, Pending(tx)))
  {
    RecoveredHome(l, e);
    LoggedDistinct(tx);
    var secs, blocks := Logged(tx), Contents(tx);
    forall s | 0 <= s < |e| && !l.Contains(s)
      ensures Apply(e, Installs(secs, blocks))[s] == Overlay(e, Pending(tx))[s]
    {
      if s in secs {
        var i :| 0 <= i < |secs| && secs[i] == s;
        InstallGives(e, secs, blocks, i);
      } else {
        InstallsElsewhere(e, secs, blocks, s);
      }
    }
  }

  lemma {:induction false} LoggedFrom(tx: seq<Entry>, s: nat)
    requires s in Logged(tx)
    ensures exists e :: e in tx && e.sector == s
  {
    var n := |tx| - 1;
    if s == tx[n].sector {
      assert tx[n] in tx;
    } else {
      LoggedFrom(tx[..n], s);
      var e :| e in tx[..n] && e.sector == s;
      assert e in tx;
    }
  }

  /** The disk right after the commit record, as the log phase left it. */
  lemma {:induction false} CommitPoint(l: Layout, disk: Sectors, tx: seq<Entry>)
    requires Ready(l, disk) && Acceptable(l, disk, tx)
    ensures var e := Apply(disk, LogWrites(l, tx))[l.start := PackHeader(disk[l.start], Logged(tx))];
            && Ready(l, e) && Acceptable(l, e, tx)
            && Listed(l, e, e[l.start]) == Logged(tx) && LogBlocks(l, e, |Logged(tx)|) == Contents(tx)
            && SameHome(l, Overlay(e, Pending(tx)), Overlay(disk, Pending(tx)))
  {
    LogPhase(l, disk, tx);
    var d := Apply(disk, LogWrites(l, tx));
    var e := d[l.start := PackHeader(disk[l.start], Logged(tx))];
    forall i | 0 <= i < |Logged(tx)|
      ensures Home(l, e, Logged(tx)[i])
    {
      LoggedFrom(tx, Logged(tx)[i]);
    }
    PackedHeader(l, e, disk[l.start], Logged(tx));
    assert LogBlocks(l, e, |Logged(tx)|) == LogBlocks(l, d, |Logged(tx)|);
  }

  /** Crash atomicity: stop after any k sector writes of a transaction, let recovery be cut short
      any number of times, and let one recovery complete. The home sectors are all as before if
      the commit record had not been written, and all as last logged if it had. */
  lemma {:induction false} CrashAtomicity(l: Layout, disk: Sectors, tx: seq<Entry>, k: nat, js: seq<nat>)
    requires Ready(l, disk) && disk[l.start][0] == 0 && Acceptable(l, disk, tx)
    requires k <= |TransWrites(l, disk, tx)|
    ensures var d := Apply(disk, TransWrites(l, disk, tx)[..k]);
            Ready(l, d)
            && SameHome(l, Recovered(l, AfterCrashes(l, d, js)),
                        if k <= |tx| then disk else Overlay(disk, Pending(tx)))
  {
    hide Apply, TransWrites, Recovered, AfterCrashes, Overlay, Pending;
    if k <= |tx| {
      CrashBeforeRecord(l, disk, tx, k);
    } else {
      CrashAfterRecord(l, disk, tx, k);
    }
    RecoverySurvivesCrashes(l, Apply(disk, TransWrites(l, disk, tx)[..k]), js);
  }

  lemma {:induction false} CrashBeforeRecord(l: Layout, disk: Sectors, tx: seq<Entry>, k: nat)
    requires Ready(l, disk) && disk[l.start][0] == 0 && Acceptable(l, disk, tx) && k <= |tx|
    ensures var d := Apply(disk, TransWrites(l, disk, tx)[..k]);
            Ready(l, d) && SameHome(l, Recovered(l, d), disk)
  {
    LogWritesPrefix(l, tx, k);
    AcceptablePrefix(l, disk, tx, k);
    hide Apply, LogWrites, Recovered, LogBlocks, CommitWrites, Logged, Contents;
    assert TransWrites(l, disk, tx)[..k] == LogWrites(l, tx[..k]);
    LogPhase(l, disk, tx[..k]);
    BeforeCommitRecord(l, disk, Apply(disk, LogWrites(l, tx[..k])));
  }

  lemma {:induction false} CrashAfterRecord(l: Layout, disk: Sectors, tx: seq<Entry>, k: nat)
    requires Ready(l, disk) && Acceptable(l, disk, tx) && |tx| < k <= |TransWrites(l, disk, tx)|
    ensures var d := Apply(disk, TransWrites(l, disk, tx)[..k]);
            Ready(l, d) && SameHome(l, Recovered(l, d), Overlay(disk, Pending(tx)))
  {
    hide Apply, LogWrites, Recovered, RecoveryWrites, LogBlocks, TransWrites, Logged, Contents, Overlay, Pending;
    var e := AfterCommitRecord(l, disk, tx, k);
    RecoveryCrash(l, e, k - |tx| - 1);
    CommitPoint(l, disk, tx);
    CommittedRecovers(l, e, tx);
  }

  lemma {:induction false} BeforeCommitRecord(l: Layout, disk: Sectors, d: Sectors)
    requires Ready(l, disk) && disk[l.start][0] == 0 && |d| == |disk|
    requires forall s :: 0 <= s < |disk| && !(l.start < s < l.start + l.size) ==> d[s] == disk[s]
    ensures Ready(l, d) && SameHome(l, Recovered(l, d), disk)
  {
    assert d[l.start] == disk[l.start];
    CleanRecovery(l, d);
  }

  lemma {:induction false} TransTail(l: Layout, disk: Sectors, tx: seq<Entry>, e: Sectors)
    requires Ready(l, disk) && Acceptable(l, disk, tx) && tx != [] && Ready(l, e)
    requires e[l.start] == PackHeader(disk[l.start], Logged(tx))
    requires Listed(l, e, e[l.start]) == Logged(tx) && LogBlocks(l, e, |Logged(tx)|) == Contents(tx)
    ensures TransWrites(l, disk, tx) == LogWrites(l, tx) + ([Write(l.start, e[l.start])] + RecoveryWrites(l, e))
  {
    hide LogWrites, Logged, Contents, Installs, PackHeader, LogBlocks, Listed;
    assert RecoveryWrites(l, e) == Installs(Logged(tx), Contents(tx)) + [Write(l.start, PackHeader(e[l.start], []))];
  }

  /** Past the commit record, a transaction's writes are those of a recovery from that point. */
  lemma {:induction false} AfterCommitRecord(l: Layout, disk: Sectors, tx: seq<Entry>, k: nat) returns (e: Sectors)
    requires Ready(l, disk) && Acceptable(l, disk, tx)
    requires |tx| < k <= |TransWrites(l, disk, tx)|
    ensures e == Apply(disk, LogWrites(l, tx))[l.start := PackHeader(disk[l.start], Logged(tx))]
    ensures Ready(l, e) && k - |tx| - 1 <= |RecoveryWrites(l, e)|
    ensures Apply(disk, TransWrites(l, disk, tx)[..k]) == Apply(e, RecoveryWrites(l, e)[..k - |tx| - 1])
  {
    hide Apply, TransWrites, LogWrites, RecoveryWrites, Logged, Contents, LogBlocks, PackHeader, IsHeader, Listed;
    CommitPoint(l, disk, tx);
    var d, rec := Apply(disk, LogWrites(l, tx)), Write(l.start, PackHeader(disk[l.start], Logged(tx)));
    e := d[l.start := rec.data];
    NothingLogged(l, disk, tx);
    TransTail(l, disk, tx, e);
    TakePast(LogWrites(l, tx), rec, RecoveryWrites(l, e), k);
    WholeTransaction(disk, LogWrites(l, tx), rec, RecoveryWrites(l, e)[..k - |tx| - 1]);
  }

  lemma {:induction false} NothingLogged(l: Layout, disk: Sectors, tx: seq<Entry>)
    requires l.Fits(disk) && Acceptable(l, disk, tx) && |TransWrites(l, disk, tx)| > |tx|
    ensures tx != []
  {
  }

  lemma {:induction false} TakePast(a: seq<Write>, rec: Write, b: seq<Write>, k: nat)
    requires |a| < k <= |a| + 1 + |b|
    ensures (a + ([rec] + b))[..k] == a + ([rec] + b[..k - |a| - 1])
  {
  }

  /** An undisturbed transaction leaves the home sectors as last logged and the log clear. */
  lemma {:induction false} CommitOutcome(l: Layout, disk: Sectors, tx: seq<Entry>)
    requires Ready(l, disk) && disk[l.start][0] == 0 && Acceptable(l, disk, tx)
    ensures var d := Apply(disk, TransWrites(l, disk, tx));
            SameHome(l, d, Overlay(disk, Pending(tx))) && Ready(l, d) && d[l.start][0] == 0
  {
    if tx != [] {
      var e := Apply(disk, LogWrites(l, tx))[l.start := PackHeader(disk[l.start], Logged(tx))];
      CommitPoint(l, disk, tx);
      TransTail(l, disk, tx, e);
      hide Apply, TransWrites, LogWrites, RecoveryWrites, Logged, Contents, LogBlocks, Overlay, Pending, PackHeader;
      WholeTransaction(disk, LogWrites(l, tx), Write(l.start, e[l.start]), RecoveryWrites(l, e));
      RecoveredHome(l, e);
      CommittedRecovers(l, e, tx);
    }
  }

  lemma {:induction false} WholeTransaction(disk: Sectors, a: seq<Write>, rec: Write, b: seq<Write>)
    requires rec.sector < |disk|
    ensures Apply(disk, a + ([rec] + b)) == Apply(Apply(disk, a)[rec.sector := rec.data], b)
  {
    ApplyConcat(disk, a, [rec] + b);
    ApplyConcat(Apply(disk, a), [rec], b);
    ApplyOne(Apply(disk, a), rec);
  }
}

/** The log of kernel/log.c running on the buffer cache: its calls produce exactly the sector
    writes of LogTrace, and keep cache, disk and pending blocks coherent. */
module LogDriver {
  import opened Disk
  import opened BufferCache
  import opened LogTrace
  import opened Param

  /** Buffers somebody else holds are left alone, but for their place in the ring. */
  ghost predicate OthersKept(was: seq<Buf>, now: seq<Buf>, b: nat) {
    |now| == |was| == NBUF + 1 && forall c :: 0 <= c < NBUF && c != b && was[c].busy ==> SameBut(now[c], was[c])
  }

  // ---- when a sector can be had ----

  /** Nobody holds the buffer of sector s. */
  ghost predicate NotHeld(bufs: seq<Buf>, s: nat) {
    |bufs| == NBUF + 1 && forall b :: 0 <= b < NBUF && Holds(bufs[b], ROOTDEV, s) ==> !bufs[b].busy
  }

  ghost predicate Spare(bufs: seq<Buf>) {
    |bufs| == NBUF + 1 && exists k :: 0 <= k < NBUF && Recyclable(bufs[k])
  }

  ghost predicate TwoSpare(bufs: seq<Buf>) {
    |bufs| == NBUF + 1
    && exists j, k :: 0 <= j < NBUF && 0 <= k < NBUF && j != k && Recyclable(bufs[j]) && Recyclable(bufs[k])
  }

  /** bread gets sector s at once: its buffer is free, or it has none and some buffer can be recycled. */
  ghost predicate Available(bufs: seq<Buf>, s: nat) {
    NotHeld(bufs, s) && (Absent(bufs, ROOTDEV, s) ==> Spare(bufs))
  }

  /** All buffers but those in bs are as before, but for their place in the ring. */
  ghost predicate SameOthers(was: seq<Buf>, now: seq<Buf>, bs: set<nat>) {
    |now| == |was| == NBUF + 1 && forall c :: 0 <= c < NBUF && c !in bs ==> SameBut(now[c], was[c])
  }

  /** Buffer b is held for sector s, with what a reader of s must see. */
  ghost predicate Held(bufs: seq<Buf>, disk: Sectors, pend: map<nat, Block>, b: nat, s: nat) {
    && |bufs| == NBUF + 1 && b < NBUF && bufs[b].busy && bufs[b].valid
    && Holds(bufs[b], ROOTDEV, s) && Releasable(bufs[b], disk, pend)
  }

  /** Buffer b caches sector s, and nobody holds it. */
  ghost predicate Rests(bufs: seq<Buf>, b: nat, s: nat) {
    |bufs| == NBUF + 1 && b < NBUF && !bufs[b].busy && Holds(bufs[b], ROOTDEV, s)
  }

  lemma {:induction false} SameOthersTrans(a: seq<Buf>, b: seq<Buf>, c: seq<Buf>, x: set<nat>, y: set<nat>)
    requires SameOthers(a, b, x) && SameOthers(b, c, y)
    ensures SameOthers(a, c, x + y)
  {
    forall i | 0 <= i < NBUF && i !in x + y
      ensures SameBut(c[i], a[i])
    {
      assert SameBut(b[i], a[i]) && SameBut(c[i], b[i]);
    }
  }

  /** What happens to other buffers and other sectors does not matter to a holder. */
  lemma {:induction false} HeldStays(was: seq<Buf>, now: seq<Buf>, disk: Sectors, disk': Sectors, pend: map<nat, Block>,
                                     pend': map<nat, Block>, bs: set<nat>, b: nat, s: nat)
    requires Held(was, disk, pend, b, s) && SameOthers(was, now, bs) && b !in bs && |disk'| == |disk|
             && disk'[s] == disk[s]
    requires (s in pend' <==> s in pend) && (s in pend ==> pend'[s] == pend[s])
    ensures Held(now, disk', pend', b, s) && now[b].data == was[b].data
  {
    assert SameBut(now[b], was[b]);
  }

  lemma {:induction false} RestsStays(was: seq<Buf>, now: seq<Buf>, bs: set<nat>, b: nat, s: nat)
    requires Rests(was, b, s) && SameOthers(was, now, bs) && b !in bs
    ensures Rests(now, b, s)
  {
    assert SameBut(now[b], was[b]);
  }

  /** Buffers that were free before and are free again: nobody else notices. */
  lemma {:induction false} Released(was: seq<Buf>, now: seq<Buf>, bs: set<nat>)
    requires SameOthers(was, now, bs) && forall b :: b in bs ==> b < NBUF && !was[b].busy && !now[b].busy
    ensures OthersKept(was, now, HEAD) && NoneTaken(was, now)
  {
    forall c | 0 <= c < NBUF
      ensures (was[c].busy ==> SameBut(now[c], was[c])) && (now[c].busy ==> was[c].busy)
    {
      if c !in bs {
        assert SameBut(now[c], was[c]);
      }
    }
  }

  /** Every buffer held now was held before. */
  ghost predicate NoneTaken(was: seq<Buf>, now: seq<Buf>) {
    |now| == |was| == NBUF + 1 && forall c :: 0 <= c < NBUF && now[c].busy ==> was[c].busy
  }

  /** Where the buffer taken for sector s comes from. */
  ghost predicate TakenFor(was: seq<Buf>, b: nat, s: nat) {
    |was| == NBUF + 1 && b < NBUF && !was[b].busy && (Holds(was[b], ROOTDEV, s) || Recyclable(was[b]))
  }

  lemma {:induction false} NotHeldStays(was: seq<Buf>, now: seq<Buf>, s: nat)
    requires NotHeld(was, s) && OthersKept(was, now, HEAD) && NoneTaken(was, now)
    ensures NotHeld(now, s)
  {
    forall b | 0 <= b < NBUF && Holds(now[b], ROOTDEV, s)
      ensures !now[b].busy
    {
      assert now[b].busy ==> was[b].busy && SameBut(now[b], was[b]);
    }
  }

  /** With one buffer taken for sector `from`, sector `to` can still be had. */
  lemma {:induction false} SecondAvailable(was: seq<Buf>, now: seq<Buf>, disk: Sectors, pend: map<nat, Block>, b: nat,
                                           from: nat, to: nat)
    requires Coherent(was, disk, pend) && NotHeld(was, to) && (TwoSpare(was) || to in pend)
    requires TakenFor(was, b, from) && SameOthers(was, now, {b}) && Holds(now[b], ROOTDEV, from) && from != to
    ensures Available(now, to)
  {
    forall c | 0 <= c < NBUF && Holds(now[c], ROOTDEV, to)
      ensures !now[c].busy
    {
      assert c == b || SameBut(now[c], was[c]);
    }
    if to in pend {
      var c :| 0 <= c < NBUF && Holds(was[c], ROOTDEV, to);
      assert Settled(was[c], disk, pend);
      assert c != b && SameBut(now[c], was[c]);
    } else {
      var j, k :| 0 <= j < NBUF && 0 <= k < NBUF && j != k && Recyclable(was[j]) && Recyclable(was[k]);
      var c := if j == b then k else j;
      assert SameBut(now[c], was[c]) && Recyclable(now[c]);
    }
  }

  /** A buffer at rest whose sector is not pending can be recycled. */
  lemma {:induction false} RestingIsSpare(bufs: seq<Buf>, disk: Sectors, pend: map<nat, Block>, b: nat, s: nat)
    requires Coherent(bufs, disk, pend) && b < NBUF && Holds(bufs[b], ROOTDEV, s) && !bufs[b].busy && s !in pend
    ensures Recyclable(bufs[b]) && Spare(bufs)
  {
    assert Settled(bufs[b], disk, pend);
    assert Recyclable(bufs[b]);
  }

  /** With nothing pending and nobody holding a buffer, all of them can be recycled. */
  lemma {:induction false} RestingCache(bufs: seq<Buf>, disk: Sectors)
    requires Coherent(bufs, disk, map[]) && forall b :: 0 <= b < NBUF ==> !bufs[b].busy
    ensures Spare(bufs) && TwoSpare(bufs)
  {
    assert Settled(bufs[0], disk, map[]) && Settled(bufs[1], disk, map[]);
    assert Recyclable(bufs[0]) && Recyclable(bufs[1]);
  }

  /** Nobody holds a sector of the log region, or one of the first n listed. */
  ghost predicate Clear(bufs: seq<Buf>, l: Layout, n: nat, sector: seq<nat>)
    requires n <= |sector|
  {
    (forall i :: 0 <= i < n ==> NotHeld(bufs, sector[i])) && forall s :: l.Contains(s) ==> NotHeld(bufs, s)
  }

  lemma {:induction false} ClearStays(was: seq<Buf>, now: seq<Buf>, l: Layout, n: nat, sector: seq<nat>)
    requires n <= |sector| && Clear(was, l, n, sector) && OthersKept(was, now, HEAD) && NoneTaken(was, now)
    ensures Clear(now, l, n, sector)
  {
    hide NotHeld, OthersKept, NoneTaken;
    forall i | 0 <= i < n
      ensures NotHeld(now, sector[i])
    {
      NotHeldStays(was, now, sector[i]);
    }
    forall s | l.Contains(s)
      ensures NotHeld(now, s)
    {
      NotHeldStays(was, now, s);
    }
  }

  lemma {:induction false} SpareAvailable(bufs: seq<Buf>, s: nat)
    requires NotHeld(bufs, s) && Spare(bufs)
    ensures Available(bufs, s)
  {
  }

  /** Nobody holds a buffer. */
  ghost predicate Idle(bufs: seq<Buf>) {
    |bufs| == NBUF + 1 && forall c :: 0 <= c < NBUF ==> !bufs[c].busy
  }

  /** The buffers somebody holds. */
  ghost function Busy(bufs: seq<Buf>): set<nat>
    requires |bufs| == NBUF + 1
  {
    set c: nat | c < NBUF && bufs[c].busy
  }

  ghost function BusyBelow(bufs: seq<Buf>, k: nat): set<nat>
    requires k <= NBUF < |bufs|
  {
    set c: nat | c < k && bufs[c].busy
  }

  /** The sectors of the first k buffers that nobody holds. */
  ghost function SectorsOf(bufs: seq<Buf>, k: nat): set<nat>
    requires k <= NBUF < |bufs|
  {
    set c: nat | c < k && !bufs[c].busy :: bufs[c].sector
  }

  lemma {:induction false} SectorsDiffer(bufs: seq<Buf>, c: nat, d: nat)
    requires |bufs| == NBUF + 1 && AtMostOne(bufs) && c < d < NBUF && bufs[c].dev == ROOTDEV && bufs[d].dev == ROOTDEV
    ensures bufs[c].sector != bufs[d].sector
  {
    assert !Holds(bufs[d], bufs[c].dev, bufs[c].sector);
  }

  /** Buffer k, held or not. */
  lemma {:induction false} SectorsStep(bufs: seq<Buf>, k: nat)
    requires |bufs| == NBUF + 1 && k < NBUF
    ensures SectorsOf(bufs, k + 1) == SectorsOf(bufs, k) + if bufs[k].busy then {} else {bufs[k].sector}
    ensures BusyBelow(bufs, k + 1) == BusyBelow(bufs, k) + if bufs[k].busy then {k} else {}
    ensures k !in BusyBelow(bufs, k) && (k == 0 ==> SectorsOf(bufs, k) == {} && BusyBelow(bufs, k) == {})
  {
  }

  lemma {:induction false} SectorNew(bufs: seq<Buf>, k: nat)
    requires |bufs| == NBUF + 1 && AtMostOne(bufs) && k < NBUF
    requires forall c :: 0 <= c <= k && !bufs[c].busy ==> bufs[c].dev == ROOTDEV
    ensures !bufs[k].busy ==> bufs[k].sector !in SectorsOf(bufs, k)
  {
    hide AtMostOne;
    forall c | 0 <= c < k && !bufs[c].busy && !bufs[k].busy
      ensures bufs[c].sector != bufs[k].sector
    {
      SectorsDiffer(bufs, c, k);
    }
  }

  lemma {:induction false} SectorsCount(bufs: seq<Buf>, k: nat)
    requires |bufs| == NBUF + 1 && AtMostOne(bufs) && k <= NBUF
    requires forall c :: 0 <= c < k && !bufs[c].busy ==> bufs[c].dev == ROOTDEV
    ensures |SectorsOf(bufs, k)| + |BusyBelow(bufs, k)| == k
  {
    hide AtMostOne, SectorsOf, BusyBelow;
    if k == 0 {
      SectorsStep(bufs, 0);
    } else {
      SectorsCount(bufs, k - 1);
      SectorsStep(bufs, k - 1);
      SectorNew(bufs, k - 1);
    }
  }

  lemma {:induction false} ListBound(secs: seq<nat>, s: set<nat>)
    requires forall x :: x in s ==> x in secs
    ensures |s| <= |secs|
  {
    if secs != [] {
      var n := |secs| - 1;
      forall x | x in s - {secs[n]}
        ensures x in secs[..n]
      {
        assert x in secs;
      }
      ListBound(secs[..n], s - {secs[n]});
    }
  }

  /** If fewer buffers are held or pinned than there are, one can be recycled. */
  lemma {:induction false} SomeSpare(bufs: seq<Buf>, disk: Sectors, pend: map<nat, Block>, secs: seq<nat>)
    requires Coherent(bufs, disk, pend) && AtMostOne(bufs)
    requires (forall s :: s in pend ==> s in secs) && |secs| + |Busy(bufs)| < NBUF
    ensures Spare(bufs)
  {
    assert BusyBelow(bufs, NBUF) == Busy(bufs);
    if !Spare(bufs) {
      forall c | 0 <= c < NBUF && !bufs[c].busy
        ensures bufs[c].dev == ROOTDEV && bufs[c].sector in secs
      {
        assert !Recyclable(bufs[c]) && Settled(bufs[c], disk, pend);
      }
      SectorsCount(bufs, NBUF);
      ListBound(secs, SectorsOf(bufs, NBUF));
      assert false;
    }
  }

  /** bread: the buffer holds what every reader must see. */
  method Hold(cache: Cache, s: nat, ghost pend: map<nat, Block>) returns (r: Access)
    requires cache.Valid() && Coherent(cache.bufs, cache.disk, pend)
    modifies cache`bufs, cache`disk, cache`writes
    ensures cache.Valid() && cache.disk == old(cache.disk) && cache.writes == old(cache.writes)
    ensures r.Buffer? <==> s < |cache.disk| && Available(old(cache.bufs), s)
    ensures r.Buffer? ==>
              && TakenFor(old(cache.bufs), r.b, s) && Held(cache.bufs, cache.disk, pend, r.b, s)
              && SameOthers(old(cache.bufs), cache.bufs, {r.b}) && Coherent(cache.bufs, cache.disk, pend)
  {
    ghost var was := cache.bufs;
    r := cache.Bread(ROOTDEV, s);
    if r.Buffer? {
      if Holds(was[r.b], ROOTDEV, s) {
        ClaimCoherent(was, cache.disk, pend, r.b, s);
      } else {
        FetchCoherent(was, cache.disk, pend, r.b, s);
        assert Recyclable(was[r.b]);
      }
    }
  }

  /** memmove into a held buffer, then bwrite. */
  method Store(cache: Cache, b: nat, data: Block, ghost s: nat, ghost pend: map<nat, Block>)
    requires cache.Valid() && Coherent(cache.bufs, cache.disk, pend) && Held(cache.bufs, cache.disk, pend, b, s)
    modifies cache
    ensures cache.Valid() && s < |old(cache.disk)|
    ensures cache.disk == old(cache.disk)[s := data] && cache.writes == old(cache.writes) + [Write(s, data)]
    ensures Held(cache.bufs, cache.disk, pend - {s}, b, s) && SameOthers(old(cache.bufs), cache.bufs, {b})
    ensures Coherent(cache.bufs, cache.disk, pend - {s})
  {
    HeldMayChange(cache.bufs, cache.disk, pend, b, data);
    cache.SetData(b, data);
    WriteCoherent(cache.bufs, cache.disk, pend, b);
    var ok := cache.Bwrite(b);
  }

  /** brelse. */
  method Drop(cache: Cache, b: nat, ghost s: nat, ghost pend: map<nat, Block>)
    requires cache.Valid() && Coherent(cache.bufs, cache.disk, pend) && Held(cache.bufs, cache.disk, pend, b, s)
    modifies cache`bufs, cache`ring
    ensures cache.Valid() && Coherent(cache.bufs, cache.disk, pend)
    ensures Rests(cache.bufs, b, s) && SameOthers(old(cache.bufs), cache.bufs, {b})
  {
    ghost var was := cache.bufs;
    var ok := cache.Brelse(b);
    ReleaseCoherent(was, cache.bufs, cache.disk, pend, b);
    ghost var x := was[b := was[b].(busy := false)];
    assert forall c :: 0 <= c < NBUF ==> SameBut(cache.bufs[c], x[c]);
  }

  /** The copying loop of write_head (log.c:112-116). */
  method FillHeader(b: Block, n: nat, sector: seq<nat>) returns (hb: Block)
    requires n <= LOGSIZE && n <= |sector|
    ensures hb == PackHeader(b, sector[..n])
  {
    hb := b[0 := n];
    var i := 0;
    while i < n
      invariant 0 <= i <= n
      invariant hb[0] == n && (forall k :: 0 <= k < i ==> hb[1 + k] == sector[k])
      invariant forall k :: 1 + i <= k < WORDS ==> hb[k] == b[k]
    {
      hb := hb[1 + i := sector[i]];
      i := i + 1;
    }
    assert forall k :: 1 <= k <= n ==> hb[k] == sector[..n][k - 1];
  }

  /** write_head (log.c:108-120), for the first n sectors of the in-memory header. */
  method WriteHead(cache: Cache, l: Layout, n: nat, sector: seq<nat>, ghost pend: map<nat, Block>)
    returns (ok: bool)
    requires cache.Valid() && Coherent(cache.bufs, cache.disk, pend)
    requires l.Fits(cache.disk) && l.start !in pend && n <= LOGSIZE && n <= |sector|
    modifies cache
    ensures ok <==> Available(old(cache.bufs), l.start)
    ensures ok ==>
              && cache.Valid() && Coherent(cache.bufs, cache.disk, pend)
              && cache.disk == old(cache.disk)[l.start := PackHeader(old(cache.disk)[l.start], sector[..n])]
              && cache.writes == old(cache.writes) + [Write(l.start, PackHeader(old(cache.disk)[l.start], sector[..n]))]
              && OthersKept(old(cache.bufs), cache.bufs, HEAD) && NoneTaken(old(cache.bufs), cache.bufs)
              && Spare(cache.bufs)
    ensures !ok ==> cache.disk == old(cache.disk) && cache.writes == old(cache.writes)
  {
    hide Coherent, SameOthers, OthersKept, NoneTaken, Available, PackHeader, Spare, Linked;
    ghost var bufs0 := cache.bufs;
    var r := Hold(cache, l.start, pend);
    if !r.Buffer? {
      return false;
    }
    ghost var bufs1 := cache.bufs;
    var hb := FillHeader(cache.bufs[r.b].data, n, sector);
    Store(cache, r.b, hb, l.start, pend);
    assert pend - {l.start} == pend;
    ghost var bufs2 := cache.bufs;
    Drop(cache, r.b, l.start, pend);
    RestingIsSpare(cache.bufs, cache.disk, pend, r.b, l.start);
    SameOthersTrans(bufs0, bufs1, bufs2, {r.b}, {r.b});
    SameOthersTrans(bufs0, bufs2, cache.bufs, {r.b}, {r.b});
    Released(bufs0, cache.bufs, {r.b});
    return true;
  }

  /** The disk after t installs. */
  ghost predicate InstalledTo(now: Sectors, was: Sectors, secs: seq<nat>, blocks: seq<Block>, t: nat)
    requires |secs| == |blocks| && t <= |secs|
  {
    now == Apply(was, Installs(secs, blocks)[..t])
  }

  /** The disk and the list of writes after t installs. */
  ghost predicate InstalledUpTo(disk0: Sectors, writes0: seq<Write>, disk: Sectors, writes: seq<Write>, secs: seq<nat>,
                                blocks: seq<Block>, t: nat)
  {
    && |secs| == |blocks| && t <= |secs|
    && InstalledTo(disk, disk0, secs, blocks, t) && writes == writes0 + Installs(secs, blocks)[..t]
  }

  lemma {:induction false} InstallOne(now: Sectors, was: Sectors, secs: seq<nat>, blocks: seq<Block>, t: nat)
    requires |secs| == |blocks| && t < |secs| && secs[t] < |was|
    requires InstalledTo(now, was, secs, blocks, t)
    ensures InstalledTo(now[secs[t] := blocks[t]], was, secs, blocks, t + 1)
  {
    var ws := Installs(secs, blocks);
    assert ws[..t + 1] == ws[..t] + [Write(secs[t], blocks[t])];
    ApplyConcat(was, ws[..t], [ws[t]]);
    ApplyOne(now, ws[t]);
  }

  /** Installing never touches the log region. */
  lemma {:induction false} InstallKeepsLog(now: Sectors, was: Sectors, l: Layout, secs: seq<nat>, blocks: seq<Block>,
                                           t: nat)
    requires |secs| == |blocks| && t <= |secs| && l.Fits(was)
    requires forall i :: 0 <= i < |secs| ==> Home(l, was, secs[i])
    requires InstalledTo(now, was, secs, blocks, t)
    ensures |now| == |was| && SameLog(l, now, was)
  {
    forall s | 0 <= s < |was| && l.Contains(s)
      ensures now[s] == was[s]
    {
      ApplyElsewhere(was, Installs(secs, blocks)[..t], s);
    }
  }

  /** One pass of install_trans (log.c:80-85). */
  method InstallBlock(cache: Cache, l: Layout, from: nat, to: nat, ghost pend: map<nat, Block>) returns (ok: bool)
    requires cache.Valid() && Coherent(cache.bufs, cache.disk, pend)
    requires from < |cache.disk| && to < |cache.disk| && from !in pend && from != to
    modifies cache
    ensures (&& Available(old(cache.bufs), from) && NotHeld(old(cache.bufs), to)
             && (TwoSpare(old(cache.bufs)) || to in pend)) ==> ok
    ensures ok ==>
              && cache.Valid() && Coherent(cache.bufs, cache.disk, pend - {to})
              && cache.disk == old(cache.disk)[to := old(cache.disk)[from]]
              && cache.writes == old(cache.writes) + [Write(to, old(cache.disk)[from])]
              && OthersKept(old(cache.bufs), cache.bufs, HEAD) && NoneTaken(old(cache.bufs), cache.bufs)
              && Spare(cache.bufs) && TwoSpare(cache.bufs)
    ensures !ok ==> cache.disk == old(cache.disk) && cache.writes == old(cache.writes)
  {
    hide Coherent, HeldBoth, OthersKept, NoneTaken, Available, NotHeld, TwoSpare, Spare, Linked;
    var x, y;
    ok, x, y := HoldBoth(cache, from, to, pend);
    if ok {
      CopyAcross(cache, x, y, from, to, old(cache.bufs), pend);
    }
  }

  /** Buffers x and y, which nobody held in bufs0, are held for two sectors. */
  ghost predicate HeldBoth(bufs0: seq<Buf>, bufs: seq<Buf>, disk: Sectors, pend: map<nat, Block>, x: nat, s: nat,
                           y: nat, t: nat) {
    && Held(bufs, disk, pend, x, s) && Held(bufs, disk, pend, y, t) && x != y && SameOthers(bufs0, bufs, {x} + {y})
    && !bufs0[x].busy && !bufs0[y].busy
  }

  /** bread of the log block and of its destination. */
  method HoldBoth(cache: Cache, from: nat, to: nat, ghost pend: map<nat, Block>) returns (ok: bool, x: nat, y: nat)
    requires cache.Valid() && Coherent(cache.bufs, cache.disk, pend)
    requires from < |cache.disk| && to < |cache.disk| && from !in pend && from != to
    modifies cache
    ensures (&& Available(old(cache.bufs), from) && NotHeld(old(cache.bufs), to)
             && (TwoSpare(old(cache.bufs)) || to in pend)) ==> ok
    ensures cache.disk == old(cache.disk) && cache.writes == old(cache.writes)
    ensures ok ==>
              && cache.Valid() && Coherent(cache.bufs, cache.disk, pend)
              && HeldBoth(old(cache.bufs), cache.bufs, cache.disk, pend, x, from, y, to)
  {
    hide Coherent, SameOthers, Available, NotHeld, TwoSpare, Spare, Linked;
    ghost var bufs0, disk0 := cache.bufs, cache.disk;
    x, y := 0, 0;
    var lr := Hold(cache, from, pend);
    if !lr.Buffer? {
      return false, x, y;
    }
    ghost var bufs1 := cache.bufs;
    if NotHeld(bufs0, to) && (TwoSpare(bufs0) || to in pend) {
      SecondAvailable(bufs0, bufs1, cache.disk, pend, lr.b, from, to);
    }
    var dr := Hold(cache, to, pend);
    if !dr.Buffer? {
      return false, x, y;
    }
    assert lr.b != dr.b;
    HeldStays(bufs1, cache.bufs, disk0, disk0, pend, pend, {dr.b}, lr.b, from);
    FreeBefore(bufs0, bufs1, lr.b, dr.b);
    SameOthersTrans(bufs0, bufs1, cache.bufs, {lr.b}, {dr.b});
    return true, lr.b, dr.b;
  }

  /** memmove, bwrite of the destination, brelse of both. */
  method CopyAcross(cache: Cache, x: nat, y: nat, ghost from: nat, ghost to: nat, ghost bufs0: seq<Buf>,
                    ghost pend: map<nat, Block>)
    requires cache.Valid() && Coherent(cache.bufs, cache.disk, pend) && from !in pend && from != to
             && from < |cache.disk|
    requires HeldBoth(bufs0, cache.bufs, cache.disk, pend, x, from, y, to)
    modifies cache
    ensures to < |old(cache.disk)| && cache.Valid() && Coherent(cache.bufs, cache.disk, pend - {to})
    ensures cache.disk == old(cache.disk)[to := old(cache.disk)[from]]
    ensures cache.writes == old(cache.writes) + [Write(to, old(cache.disk)[from])]
    ensures OthersKept(bufs0, cache.bufs, HEAD) && NoneTaken(bufs0, cache.bufs)
    ensures Spare(cache.bufs) && TwoSpare(cache.bufs)
  {
    hide Coherent, SameOthers, OthersKept, NoneTaken, TwoSpare, Spare, Linked;
    ghost var bufs2, disk0 := cache.bufs, cache.disk;
    Store(cache, y, cache.bufs[x].data, to, pend);
    ghost var bufs3 := cache.bufs;
    HeldStays(bufs2, bufs3, disk0, cache.disk, pend, pend - {to}, {y}, x, from);
    Drop(cache, x, from, pend - {to});
    ghost var bufs4 := cache.bufs;
    HeldStays(bufs3, bufs4, cache.disk, cache.disk, pend - {to}, pend - {to}, {x}, y, to);
    Drop(cache, y, to, pend - {to});
    RestsStays(bufs4, cache.bufs, {y}, x, from);
    BothSpare(cache.bufs, cache.disk, pend - {to}, x, from, y, to);
    InstallReleases(bufs0, bufs2, bufs3, bufs4, cache.bufs, x, y);
  }

  lemma {:induction false} BothSpare(bufs: seq<Buf>, disk: Sectors, pend: map<nat, Block>, x: nat, s: nat, y: nat,
                                     t: nat)
    requires Coherent(bufs, disk, pend) && Rests(bufs, x, s) && Rests(bufs, y, t) && x != y && s !in pend && t !in pend
    ensures Spare(bufs) && TwoSpare(bufs)
  {
    RestingIsSpare(bufs, disk, pend, x, s);
    RestingIsSpare(bufs, disk, pend, y, t);
  }

  lemma {:induction false} FreeBefore(was: seq<Buf>, now: seq<Buf>, b: nat, c: nat)
    requires SameOthers(was, now, {b}) && b != c && c < NBUF && !now[c].busy
    ensures !was[c].busy
  {
    assert SameBut(now[c], was[c]);
  }

  lemma {:induction false} InstallReleases(a: seq<Buf>, b: seq<Buf>, c: seq<Buf>, d: seq<Buf>, e: seq<Buf>, x: nat,
                                           y: nat)
    requires SameOthers(a, b, {x} + {y}) && SameOthers(b, c, {y}) && SameOthers(c, d, {x}) && SameOthers(d, e, {y})
    requires x < NBUF && y < NBUF && !a[x].busy && !a[y].busy && !e[x].busy && !e[y].busy
    ensures OthersKept(a, e, HEAD) && NoneTaken(a, e)
  {
    hide SameOthers, OthersKept, NoneTaken;
    SameOthersTrans(a, b, c, {x} + {y}, {y});
    SameOthersTrans(a, c, d, {x} + {y} + {y}, {x});
    SameOthersTrans(a, d, e, {x} + {y} + {y} + {x}, {y});
    Released(a, e, {x} + {y} + {y} + {x} + {y});
  }

  /** The first n sectors are home sectors, not too many, and all pending sectors are among them. */
  ghost predicate Listing(l: Layout, disk: Sectors, n: nat, sector: seq<nat>, pend: map<nat, Block>) {
    && l.Fits(disk) && n <= l.Capacity() && n <= |sector|
    && (forall i :: 0 <= i < n ==> Home(l, disk, sector[i])) && forall s :: s in pend ==> s in sector[..n]
  }

  /** install_trans (log.c:76-87). */
  method InstallTrans(cache: Cache, l: Layout, n: nat, sector: seq<nat>, ghost pend: map<nat, Block>)
    returns (ok: bool, ghost done: nat)
    requires cache.Valid() && Coherent(cache.bufs, cache.disk, pend)
    requires Listing(l, cache.disk, n, sector, pend)
    modifies cache
    ensures done <= n && (ok ==> done == n)
    ensures InstalledUpTo(old(cache.disk), old(cache.writes), cache.disk, cache.writes, sector[..n],
                          LogBlocks(l, old(cache.disk), n), done)
    ensures ok ==> cache.Valid() && Coherent(cache.bufs, cache.disk, map[])
                   && OthersKept(old(cache.bufs), cache.bufs, HEAD) && NoneTaken(old(cache.bufs), cache.bufs)
    ensures Installable(old(cache.bufs), l, n, sector, pend) ==> ok && Spare(cache.bufs)
  {
    ghost var good, blocks := Installable(cache.bufs, l, n, sector, pend), LogBlocks(l, cache.disk, n);
    InstallStart(cache.bufs, cache.disk, cache.writes, l, n, sector, pend);
    hide *;
    ghost var rest := pend;
    var tail := 0;
    done := 0;
    while tail < n
      invariant 0 <= tail == done <= n && cache.Valid()
      invariant Installing(old(cache.bufs), old(cache.disk), old(cache.writes), cache.bufs, cache.disk, cache.writes,
                           l, n, sector, blocks, tail, rest)
      invariant good ==> InstallableFrom(cache.bufs, l, tail, n, sector, rest)
    {
      InstallSoFar(old(cache.bufs), old(cache.disk), old(cache.writes), cache.bufs, cache.disk, cache.writes, l, n,
                   sector, blocks, tail, rest);
      ok := InstallAt(cache, l, n, sector, tail, old(cache.bufs), old(cache.disk), old(cache.writes), blocks, rest,
                      good);
      if !ok {
        return;
      }
      rest := rest - {sector[tail]};
      done := done + 1;
      tail := tail + 1;
    }
    InstallSoFar(old(cache.bufs), old(cache.disk), old(cache.writes), cache.bufs, cache.disk, cache.writes, l, n,
                 sector, blocks, tail, rest);
    ok := true;
  }

  /** Install number t. */
  method InstallAt(cache: Cache, l: Layout, n: nat, sector: seq<nat>, t: nat, ghost bufs0: seq<Buf>,
                   ghost disk0: Sectors, ghost writes0: seq<Write>, ghost blocks: seq<Block>,
                   ghost rest: map<nat, Block>, ghost good: bool) returns (ok: bool)
    requires cache.Valid() && t < n <= |sector| && (good ==> InstallableFrom(cache.bufs, l, t, n, sector, rest))
    requires Installing(bufs0, disk0, writes0, cache.bufs, cache.disk, cache.writes, l, n, sector, blocks, t, rest)
    modifies cache
    ensures good ==> ok
    ensures !ok ==> cache.disk == old(cache.disk) && cache.writes == old(cache.writes)
    ensures ok ==> cache.Valid() && (good ==> InstallableFrom(cache.bufs, l, t + 1, n, sector, rest - {sector[t]}))
    ensures ok ==>
              Installing(bufs0, disk0, writes0, cache.bufs, cache.disk, cache.writes, l, n, sector, blocks, t + 1,
                         rest - {sector[t]})
  {
    hide *;
    ghost var bufs1, disk1, writes1 := cache.bufs, cache.disk, cache.writes;
    InstallPlace(bufs0, disk0, writes0, bufs1, disk1, writes1, l, n, sector, blocks, t, rest);
    if good {
      CanInstall(bufs1, l, t, n, sector, rest);
    }
    ok := InstallBlock(cache, l, l.start + t + 1, sector[t], rest);
    if !ok {
      return;
    }
    if good {
      CanGoOn(bufs1, cache.bufs, l, t, n, sector, rest);
    }
    InstallNext(bufs0, disk0, writes0, bufs1, disk1, writes1, cache.bufs, l, n, sector, blocks, t, rest);
  }

  /** After t of the n installs; `rest` is still pending. */
  ghost predicate Installing(bufs0: seq<Buf>, disk0: Sectors, writes0: seq<Write>, bufs: seq<Buf>, disk: Sectors,
                             writes: seq<Write>, l: Layout, n: nat, sector: seq<nat>, blocks: seq<Block>, t: nat,
                             rest: map<nat, Block>)
  {
    && t <= n <= |sector| && |blocks| == n && l.Fits(disk0) && n <= l.Capacity() && blocks == LogBlocks(l, disk0, n)
    && (forall i :: 0 <= i < n ==> Home(l, disk0, sector[i]))
    && Coherent(bufs, disk, rest) && (forall s :: s in rest ==> s in sector[t..n])
    && InstalledUpTo(disk0, writes0, disk, writes, sector[..n], blocks, t)
    && OthersKept(bufs0, bufs, HEAD) && NoneTaken(bufs0, bufs)
  }

  lemma {:induction false} InstallStart(bufs: seq<Buf>, disk: Sectors, writes: seq<Write>, l: Layout, n: nat,
                                        sector: seq<nat>, pend: map<nat, Block>)
    requires Coherent(bufs, disk, pend) && Listing(l, disk, n, sector, pend)
    ensures Installing(bufs, disk, writes, bufs, disk, writes, l, n, sector, LogBlocks(l, disk, n), 0, pend)
    ensures Installable(bufs, l, n, sector, pend) <==> InstallableFrom(bufs, l, 0, n, sector, pend)
  {
    OthersKeptRefl(bufs);
    hide InstallableFrom, Installs, OthersKept, NoneTaken;
    assert sector[0..n] == sector[..n] && Installs(sector[..n], LogBlocks(l, disk, n))[..0] == [];
  }

  /** What the next install copies, and where to. */
  lemma {:induction false} InstallPlace(bufs0: seq<Buf>, disk0: Sectors, writes0: seq<Write>, bufs: seq<Buf>,
                                        disk: Sectors, writes: seq<Write>, l: Layout, n: nat, sector: seq<nat>,
                                        blocks: seq<Block>, t: nat, rest: map<nat, Block>)
    requires Installing(bufs0, disk0, writes0, bufs, disk, writes, l, n, sector, blocks, t, rest) && t < n
    ensures Coherent(bufs, disk, rest) && |disk| == |disk0| && n <= |sector| && n < l.size
    ensures var from := l.start + t + 1;
            && from < |disk| && sector[t] < |disk| && from !in rest && from != sector[t] && disk[from] == blocks[t]
  {
    hide Coherent, OthersKept, NoneTaken;
    var from := l.start + t + 1;
    assert l.Contains(from);
    assert forall s :: s in rest ==> Home(l, disk0, s);
    InstallKeepsLog(disk, disk0, l, sector[..n], blocks, t);
  }

  lemma {:induction false} InstallNext(bufs0: seq<Buf>, disk0: Sectors, writes0: seq<Write>, bufs1: seq<Buf>,
                                       disk1: Sectors, writes1: seq<Write>, bufs: seq<Buf>, l: Layout, n: nat,
                                       sector: seq<nat>, blocks: seq<Block>, t: nat, rest: map<nat, Block>)
    requires Installing(bufs0, disk0, writes0, bufs1, disk1, writes1, l, n, sector, blocks, t, rest) && t < n
             && sector[t] < |disk1|
    requires Coherent(bufs, disk1[sector[t] := blocks[t]], rest - {sector[t]})
    requires OthersKept(bufs1, bufs, HEAD) && NoneTaken(bufs1, bufs)
    ensures Installing(bufs0, disk0, writes0, bufs, disk1[sector[t] := blocks[t]],
                       writes1 + [Write(sector[t], blocks[t])],
                       l, n, sector, blocks, t + 1, rest - {sector[t]})
  {
    OthersKeptTrans(bufs0, bufs1, bufs);
    InstallOne(disk1, disk0, sector[..n], blocks, t);
    hide Coherent, OthersKept, NoneTaken, Apply;
    var ws := Installs(sector[..n], blocks);
    assert ws[..t + 1] == ws[..t] + [Write(sector[t], blocks[t])];
    assert sector[t..n] == [sector[t]] + sector[t + 1..n];
  }

  lemma {:induction false} InstallSoFar(bufs0: seq<Buf>, disk0: Sectors, writes0: seq<Write>, bufs: seq<Buf>,
                                        disk: Sectors, writes: seq<Write>, l: Layout, n: nat, sector: seq<nat>,
                                        blocks: seq<Block>, t: nat, rest: map<nat, Block>)
    requires Installing(bufs0, disk0, writes0, bufs, disk, writes, l, n, sector, blocks, t, rest)
    ensures n <= |sector| && InstalledUpTo(disk0, writes0, disk, writes, sector[..n], blocks, t)
    ensures t == n ==> Coherent(bufs, disk, map[])
    ensures OthersKept(bufs0, bufs, HEAD) && NoneTaken(bufs0, bufs)
    ensures InstallableFrom(bufs, l, t, n, sector, rest) ==> Spare(bufs)
  {
    assert t == n ==> rest == map[];
  }

  /** Every sector can be had when its turn comes. */
  ghost predicate InstallableFrom(bufs: seq<Buf>, l: Layout, t: nat, n: nat, sector: seq<nat>, pend: map<nat, Block>)
    requires n <= |sector|
  {
    Clear(bufs, l, n, sector) && Spare(bufs) && (TwoSpare(bufs) || forall i :: t <= i < n ==> sector[i] in pend)
  }

  ghost predicate Installable(bufs: seq<Buf>, l: Layout, n: nat, sector: seq<nat>, pend: map<nat, Block>)
    requires n <= |sector|
  {
    InstallableFrom(bufs, l, 0, n, sector, pend)
  }

  lemma {:induction false} CanInstall(bufs: seq<Buf>, l: Layout, t: nat, n: nat, sector: seq<nat>,
                                      pend: map<nat, Block>)
    requires t < n <= |sector| && n < l.size && InstallableFrom(bufs, l, t, n, sector, pend)
    ensures Available(bufs, l.start + t + 1) && NotHeld(bufs, sector[t]) && (TwoSpare(bufs) || sector[t] in pend)
  {
    hide NotHeld, Spare, TwoSpare, Available;
    assert l.Contains(l.start + t + 1);
    SpareAvailable(bufs, l.start + t + 1);
  }

  lemma {:induction false} CanGoOn(was: seq<Buf>, now: seq<Buf>, l: Layout, t: nat, n: nat, sector: seq<nat>,
                                   pend: map<nat, Block>)
    requires t < n <= |sector| && InstallableFrom(was, l, t, n, sector, pend) && Spare(now) && TwoSpare(now)
    requires OthersKept(was, now, HEAD) && NoneTaken(was, now)
    ensures InstallableFrom(now, l, t + 1, n, sector, pend - {sector[t]})
  {
    ClearStays(was, now, l, n, sector);
  }

  lemma {:induction false} OthersKeptRefl(a: seq<Buf>)
    requires |a| == NBUF + 1
    ensures OthersKept(a, a, HEAD) && NoneTaken(a, a)
  {
  }

  lemma {:induction false} OthersKeptTrans(a: seq<Buf>, b: seq<Buf>, c: seq<Buf>)
    requires OthersKept(a, b, HEAD) && OthersKept(b, c, HEAD) && NoneTaken(a, b) && NoneTaken(b, c)
    ensures OthersKept(a, c, HEAD) && NoneTaken(a, c)
  {
    assert forall i :: 0 <= i < NBUF && a[i].busy ==> SameBut(b[i], a[i]);
  }

  /** Slot is the index the search loop of log_write stops at. */
  lemma {:induction false} SlotFound(secs: seq<nat>, s: nat, i: nat)
    requires i <= |secs| && s !in secs[..i] && (i < |secs| ==> secs[i] == s)
    ensures i == Slot(secs, s)
  {
    var k := Slot(secs, s);
    assert forall j :: 0 <= j < i ==> secs[..i][j] == secs[j];
    assert forall j :: 0 <= j < k ==> secs[..k][j] == secs[j];
  }

  /** One more log_write: what it does to the list, the pending blocks and the disk. */
  lemma {:induction false} Append(l: Layout, base: Sectors, tx: seq<Entry>, e: Entry, i: nat)
    requires i == Slot(Logged(tx), e.sector) && l.start + 1 + i < |base|
    ensures Logged(tx + [e]) == if i == |Logged(tx)| then Logged(tx) + [e.sector] else Logged(tx)
    ensures Pending(tx + [e]) == Pending(tx)[e.sector := e.data]
    ensures LogWrites(l, tx + [e]) == LogWrites(l, tx) + [Write(l.start + 1 + i, e.data)]
    ensures Apply(base, LogWrites(l, tx + [e])) == Apply(base, LogWrites(l, tx))[l.start + 1 + i := e.data]
  {
    hide *;
    var tx', w := tx + [e], Write(l.start + 1 + i, e.data);
    assert tx'[..|tx|] == tx && tx'[|tx|] == e;
    AppendLists(tx');
    LogWritesLast(l, tx');
    ApplyConcat(base, LogWrites(l, tx), [w]);
    ApplyOne(Apply(base, LogWrites(l, tx)), w);
  }

  lemma {:induction false} AppendLists(tx: seq<Entry>)
    requires tx != []
    ensures var n := |tx| - 1;
            && Logged(tx) == (if Slot(Logged(tx[..n]), tx[n].sector) == |Logged(tx[..n])|
                              then Logged(tx[..n]) + [tx[n].sector]
                              else Logged(tx[..n]))
            && Pending(tx) == Pending(tx[..n])[tx[n].sector := tx[n].data]
  {
    hide Slot;
  }

  lemma {:induction false} AppendAcceptable(l: Layout, base: Sectors, tx: seq<Entry>, e: Entry)
    requires Acceptable(l, base, tx) && |Logged(tx)| < l.Capacity() && Home(l, base, e.sector)
    ensures Acceptable(l, base, tx + [e])
  {
    assert (tx + [e])[..|tx|] == tx && (tx + [e])[|tx|] == e;
    AppendLists(tx + [e]);
  }

  /** The in-memory header lists the transaction, and the disk holds its log writes. */
  ghost predicate Tracks(l: Layout, base: Sectors, tx: seq<Entry>, n: nat, sector: seq<nat>, disk: Sectors) {
    && Ready(l, base) && Acceptable(l, base, tx)
    && |sector| == LOGSIZE && n == |Logged(tx)| && sector[..n] == Logged(tx)
    && disk == Apply(base, LogWrites(l, tx))
  }

  lemma {:induction false} TracksFacts(l: Layout, base: Sectors, tx: seq<Entry>, n: nat, sector: seq<nat>,
                                       disk: Sectors)
    requires Tracks(l, base, tx, n, sector, disk)
    ensures l.Fits(base) && Acceptable(l, base, tx) && |disk| == |base|
    ensures |sector| == LOGSIZE && n == |Logged(tx)| && sector[..n] == Logged(tx) && n <= LOGSIZE
  {
  }

  /** A committed transaction leaves its outcome, and an empty one in its place. */
  lemma {:induction false} CommitDone(l: Layout, base: Sectors, tx: seq<Entry>, sector: seq<nat>, disk: Sectors)
    requires Ready(l, base) && base[l.start][0] == 0 && Acceptable(l, base, tx) && |sector| == LOGSIZE
    requires disk == Apply(base, TransWrites(l, base, tx))
    ensures Tracks(l, disk, [], 0, sector, disk) && disk[l.start][0] == 0 && Pending([]) == map[]
    ensures SameHome(l, disk, Overlay(base, Pending(tx)))
  {
    CommitOutcome(l, base, tx);
    FreshTransaction(l, disk);
  }

  lemma {:induction false} RecoveryDone(l: Layout, was: Sectors, sector: seq<nat>, disk: Sectors)
    requires Ready(l, was) && |sector| == LOGSIZE && disk == Apply(was, RecoveryWrites(l, was))
    ensures Tracks(l, disk, [], 0, sector, disk) && disk[l.start][0] == 0 && Pending([]) == map[]
  {
    RecoveredHome(l, was);
    FreshTransaction(l, disk);
  }

  lemma {:induction false} TracksAppend(l: Layout, base: Sectors, tx: seq<Entry>, n: nat, sector: seq<nat>,
                                        disk: Sectors, e: Entry, i: nat)
    requires Tracks(l, base, tx, n, sector, disk) && n < l.Capacity()
    requires Home(l, base, e.sector) && i == Slot(Logged(tx), e.sector)
    ensures l.start + 1 + i < |disk| && i <= n
    ensures Tracks(l, base, tx + [e], if i == n then n + 1
                   else n, sector[i := e.sector], disk[l.start + 1 + i := e.data])
    ensures Pending(tx + [e]) == Pending(tx)[e.sector := e.data]
  {
    hide Slot, Logged, Pending, LogWrites, Apply, IsHeader;
    AppendAcceptable(l, base, tx, e);
    Append(l, base, tx, e, i);
    var sector' := sector[i := e.sector];
    assert i < n ==> sector[i] == sector[..n][i];
    assert i < n ==> sector' == sector;
    assert i == n ==> sector'[..n + 1] == sector[..n] + [e.sector];
  }

  lemma {:induction false} PendingIsHome(l: Layout, base: Sectors, tx: seq<Entry>, s: nat)
    requires Acceptable(l, base, tx) && s in Pending(tx)
    ensures Home(l, base, s)
  {
    LoggedFrom(tx, s);
  }

  /** log.c:184-193 without the count: copy a held block to a log sector, then pin its buffer. */
  method CopyToLog(cache: Cache, b: nat, to: nat, ghost pend: map<nat, Block>) returns (ok: bool)
    requires cache.Valid() && Coherent(cache.bufs, cache.disk, pend)
    requires b < NBUF && cache.bufs[b].busy && cache.bufs[b].valid
    requires cache.bufs[b].dev == ROOTDEV && cache.bufs[b].sector < |cache.disk|
    requires to < |cache.disk| && to !in pend && to != cache.bufs[b].sector
    modifies cache
    ensures ok <==> Available(old(cache.bufs), to)
    ensures ok ==>
              && cache.Valid()
              && var s, data := old(cache.bufs[b].sector), old(cache.bufs[b].data);
                 && cache.disk == old(cache.disk)[to := data] && cache.writes == old(cache.writes) + [Write(to, data)]
                 && Coherent(cache.bufs, cache.disk, pend[s := data])
                 && cache.bufs[b].dirty && Held(cache.bufs, cache.disk, pend[s := data], b, s)
                 && OthersKept(old(cache.bufs), cache.bufs, b) && NoneTaken(old(cache.bufs), cache.bufs)
    ensures !ok ==> cache.disk == old(cache.disk) && cache.writes == old(cache.writes)
  {
    hide Coherent, SameOthers, OthersKept, NoneTaken, Available, Linked;
    ghost var bufs0 := cache.bufs;
    var r := Hold(cache, to, pend);
    if !r.Buffer? {
      return false;
    }
    ghost var bufs1 := cache.bufs;
    Unchanged(bufs0, bufs1, r.b, b);
    Store(cache, r.b, cache.bufs[b].data, to, pend);
    assert pend - {to} == pend;
    ghost var bufs2 := cache.bufs;
    Unchanged(bufs1, bufs2, r.b, b);
    Drop(cache, r.b, to, pend);
    ghost var bufs3 := cache.bufs;
    Unchanged(bufs2, bufs3, r.b, b);
    SameOthersTrans(bufs0, bufs1, bufs2, {r.b}, {r.b});
    SameOthersTrans(bufs0, bufs2, bufs3, {r.b}, {r.b});
    Released(bufs0, bufs3, {r.b});
    PinCoherent(bufs3, cache.disk, pend, b);
    cache.Pin(b);
    PinKeeps(bufs0, bufs3, b);
    return true;
  }

  lemma {:induction false} Unchanged(was: seq<Buf>, now: seq<Buf>, b: nat, c: nat)
    requires SameOthers(was, now, {b}) && b != c && c < NBUF
    ensures SameBut(now[c], was[c])
  {
  }

  lemma {:induction false} PinKeeps(was: seq<Buf>, now: seq<Buf>, b: nat)
    requires OthersKept(was, now, HEAD) && NoneTaken(was, now) && b < NBUF && was[b].busy
    ensures var pinned := now[b := now[b].(dirty := true)]; OthersKept(was, pinned, b) && NoneTaken(was, pinned)
  {
  }

  lemma {:induction false} LogSectorFree(l: Layout, base: Sectors, tx: seq<Entry>, i: nat, s: nat)
    requires l.Fits(base) && Acceptable(l, base, tx) && i <= |Logged(tx)| < l.Capacity() && Home(l, base, s)
    ensures l.start + i + 1 < |base| && l.start + i + 1 !in Pending(tx) && l.start + i + 1 != s
  {
    var k := l.start + i + 1;
    assert l.Contains(k);
    if k in Pending(tx) {
      PendingIsHome(l, base, tx, k);
    }
  }

  /** The log block can be had if nobody holds one and not all buffers are held or pinned. */
  lemma {:induction false} LogSectorAvailable(bufs: seq<Buf>, disk: Sectors, l: Layout, tx: seq<Entry>, i: nat)
    requires Coherent(bufs, disk, Pending(tx)) && AtMostOne(bufs) && |Logged(tx)| + |Busy(bufs)| < NBUF
    requires i < l.size - 1 && forall s :: l.Contains(s) ==> NotHeld(bufs, s)
    ensures Available(bufs, l.start + i + 1)
  {
    hide Coherent, Spare, Logged, LogTrace.Pending, NotHeld, Busy;
    SomeSpare(bufs, disk, Pending(tx), Logged(tx));
    assert l.Contains(l.start + i + 1);
    SpareAvailable(bufs, l.start + i + 1);
  }

  /** What commit_trans needs to know about the log phase it follows. */
  lemma {:induction false} CommitFacts(l: Layout, base: Sectors, tx: seq<Entry>)
    requires Ready(l, base) && Acceptable(l, base, tx)
    ensures var d := Apply(base, LogWrites(l, tx));
            && d[l.start] == base[l.start] && LogBlocks(l, d, |Logged(tx)|) == Contents(tx)
            && l.start !in Pending(tx)
            && (forall i :: 0 <= i < |Logged(tx)| ==> Home(l, d, Logged(tx)[i]))
  {
    LogPhase(l, base, tx);
    if l.start in Pending(tx) {
      PendingIsHome(l, base, tx, l.start);
    }
    forall i | 0 <= i < |Logged(tx)|
      ensures Home(l, base, Logged(tx)[i])
    {
      LoggedFrom(tx, Logged(tx)[i]);
    }
  }

  /** The disk and the list of writes after the first writes of a commit. */
  ghost predicate CommittedUpTo(disk0: Sectors, writes0: seq<Write>, disk: Sectors, writes: seq<Write>, l: Layout,
                                header: Block, secs: seq<nat>, blocks: seq<Block>, ok: bool, done: nat)
  {
    && |secs| == |blocks| <= LOGSIZE
    && var cw := CommitWrites(l, header, secs, blocks);
       && done <= |cw| && (ok ==> done == |cw|)
       && disk == Apply(disk0, cw[..done]) && writes == writes0 + cw[..done]
  }

  lemma {:induction false} NotCommitted(disk: Sectors, writes: seq<Write>, l: Layout, header: Block, secs: seq<nat>,
                                        blocks: seq<Block>)
    requires |secs| == |blocks| <= LOGSIZE
    ensures CommittedUpTo(disk, writes, disk, writes, l, header, secs, blocks, false, 0)
  {
  }

  /** The record and d installs. */
  lemma {:induction false} CommitRecorded(disk0: Sectors, writes0: seq<Write>, disk: Sectors, writes: seq<Write>,
                                          l: Layout, header: Block, secs: seq<nat>, blocks: seq<Block>, d: nat)
    requires |secs| == |blocks| <= LOGSIZE && d <= |secs| && l.start < |disk0|
    requires var packed := PackHeader(header, secs);
             InstalledUpTo(disk0[l.start := packed], writes0 + [Write(l.start, packed)], disk, writes, secs, blocks, d)
    ensures CommittedUpTo(disk0, writes0, disk, writes, l, header, secs, blocks, false, 1 + d)
  {
    var cw, ins, w := CommitWrites(l, header, secs, blocks), Installs(secs, blocks), Write(l.start,
        PackHeader(header, secs));
    assert cw[..1 + d] == [w] + ins[..d];
    assert writes0 + [w] + ins[..d] == writes0 + ([w] + ins[..d]);
    ApplyConcat(disk0, [w], ins[..d]);
    ApplyOne(disk0, w);
  }

  /** And the cleared record. */
  lemma {:induction false} CommitCleared(disk0: Sectors, writes0: seq<Write>, disk: Sectors, writes: seq<Write>,
                                         l: Layout, header: Block, secs: seq<nat>, blocks: seq<Block>)
    requires |secs| == |blocks| <= LOGSIZE && l.start < |disk0| == |disk|
    requires CommittedUpTo(disk0, writes0, disk, writes, l, header, secs, blocks, false, 1 + |secs|)
    ensures var cleared := PackHeader(PackHeader(header, secs), []);
            CommittedUpTo(disk0, writes0, disk[l.start := cleared], writes + [Write(l.start, cleared)], l, header,
                          secs, blocks, true, |secs| + 2)
  {
    var cw, w := CommitWrites(l, header, secs, blocks), Write(l.start, PackHeader(PackHeader(header, secs), []));
    assert cw == cw[..1 + |secs|] + [w] && cw[..|secs| + 2] == cw;
    assert writes0 + cw[..1 + |secs|] + [w] == writes0 + cw;
    ApplyConcat(disk0, cw[..1 + |secs|], [w]);
    ApplyOne(disk, w);
  }

  lemma {:induction false} InstallKeepsHeader(l: Layout, disk: Sectors, secs: seq<nat>, blocks: seq<Block>)
    requires l.Fits(disk) && |secs| == |blocks|
    requires forall i :: 0 <= i < |secs| ==> Home(l, disk, secs[i])
    ensures Apply(disk, Installs(secs, blocks))[l.start] == disk[l.start]
  {
    assert l.Contains(l.start);
    ApplyElsewhere(disk, Installs(secs, blocks), l.start);
  }

  lemma {:induction false} ListedAreHomes(l: Layout, disk: Sectors)
    requires Ready(l, disk)
    ensures var secs := Listed(l, disk, disk[l.start]);
            forall i :: 0 <= i < |secs| ==> Home(l, disk, secs[i])
  {
    var b := disk[l.start];
    forall i | 0 <= i < b[0]
      ensures Home(l, disk, Listed(l, disk, b)[i])
    {
      assert Home(l, disk, b[1 + i]);
    }
  }

  lemma {:induction false} EmptyTransaction(tx: seq<Entry>)
    requires |Logged(tx)| == 0
    ensures tx == []
  {
    if tx != [] {
      SlotRoom(tx);
    }
  }

  lemma {:induction false} CommitWritesSplit(l: Layout, base: Sectors, tx: seq<Entry>, d: nat)
    requires l.Fits(base) && Acceptable(l, base, tx) && tx != []
    requires d <= |CommitWrites(l, base[l.start], Logged(tx), Contents(tx))|
    ensures var all, cw := TransWrites(l, base, tx), CommitWrites(l, base[l.start], Logged(tx), Contents(tx));
            && |all| == |tx| + |cw| && all[|tx|..|tx| + d] == cw[..d]
            && Apply(base, all[..|tx| + d]) == Apply(Apply(base, LogWrites(l, tx)), cw[..d])
  {
    var all, cw := TransWrites(l, base, tx), CommitWrites(l, base[l.start], Logged(tx), Contents(tx));
    assert all == LogWrites(l, tx) + cw;
    assert all[..|tx| + d] == LogWrites(l, tx) + cw[..d];
    ApplyConcat(base, LogWrites(l, tx), cw[..d]);
  }

  lemma {:induction false} HeaderApart(l: Layout, disk: Sectors, header: Block, n: nat, sector: seq<nat>,
                                       pend: map<nat, Block>)
    requires Listing(l, disk, n, sector, pend)
    ensures var d := disk[l.start := header];
            l.Fits(d) && LogBlocks(l, d, n) == LogBlocks(l, disk, n) && Listing(l, d, n, sector, pend)
  {
  }

  lemma {:induction false} InstallsKeepHeader(l: Layout, was: Sectors, disk: Sectors, n: nat, sector: seq<nat>,
                                              pend: map<nat, Block>, blocks: seq<Block>, before: seq<Write>,
                                              writes: seq<Write>)
    requires Listing(l, was, n, sector, pend) && InstalledUpTo(was, before, disk, writes, sector[..n], blocks, n)
    ensures l.Fits(disk) && disk[l.start] == was[l.start]
  {
    var ins := Installs(sector[..n], blocks);
    assert ins[..n] == ins;
    InstallKeepsHeader(l, was, sector[..n], blocks);
  }

  lemma {:induction false} HeadAvailable(bufs: seq<Buf>, l: Layout, n: nat, sector: seq<nat>, pend: map<nat, Block>)
    requires n <= |sector| && 0 < l.size && Committable(bufs, l, n, sector, pend)
    ensures Available(bufs, l.start)
  {
    assert l.Contains(l.start);
    SpareAvailable(bufs, l.start);
  }

  /** Nobody holds what a commit needs, all of it is pinned, and there is a buffer to spare. */
  ghost predicate Committable(bufs: seq<Buf>, l: Layout, n: nat, sector: seq<nat>, pend: map<nat, Block>)
    requires n <= |sector|
  {
    Clear(bufs, l, n, sector) && Spare(bufs) && forall i :: 0 <= i < n ==> sector[i] in pend
  }

  lemma {:induction false} StillCommittable(was: seq<Buf>, now: seq<Buf>, l: Layout, n: nat, sector: seq<nat>,
                                            pend: map<nat, Block>)
    requires n <= |sector| && Committable(was, l, n, sector, pend)
    requires OthersKept(was, now, HEAD) && NoneTaken(was, now) && Spare(now)
    ensures Installable(now, l, n, sector, pend)
  {
    ClearStays(was, now, l, n, sector);
  }

  lemma {:induction false} StillAvailable(was: seq<Buf>, now: seq<Buf>, l: Layout, n: nat, sector: seq<nat>,
                                          pend: map<nat, Block>)
    requires n <= |sector| && 0 < l.size && Installable(was, l, n, sector, pend)
    requires OthersKept(was, now, HEAD) && NoneTaken(was, now) && Spare(now)
    ensures Available(now, l.start)
  {
    ClearStays(was, now, l, n, sector);
    assert l.Contains(l.start);
    SpareAvailable(now, l.start);
  }

  /** The commit record and the installation (log.c:145-146). */
  method RecordAndInstall(cache: Cache, l: Layout, n: nat, sector: seq<nat>, ghost blocks: seq<Block>,
                          ghost pend: map<nat, Block>)
    returns (ok: bool, ghost recorded: bool, ghost d: nat)
    requires cache.Valid() && Coherent(cache.bufs, cache.disk, pend)
    requires Listing(l, cache.disk, n, sector, pend) && |sector| == LOGSIZE && l.start !in pend
    requires LogBlocks(l, cache.disk, n) == blocks
    modifies cache
    ensures !recorded ==> !ok && cache.disk == old(cache.disk) && cache.writes == old(cache.writes)
    ensures recorded ==>
              var packed := PackHeader(old(cache.disk)[l.start], sector[..n]);
              && d <= n && (ok ==> d == n)
              && InstalledUpTo(old(cache.disk)[l.start := packed], old(cache.writes) + [Write(l.start, packed)],
                               cache.disk, cache.writes, sector[..n], blocks, d)
    ensures ok ==> cache.Valid() && Coherent(cache.bufs, cache.disk, map[]) && l.Fits(cache.disk)
                   && cache.disk[l.start] == PackHeader(old(cache.disk)[l.start], sector[..n])
                   && OthersKept(old(cache.bufs), cache.bufs, HEAD) && NoneTaken(old(cache.bufs), cache.bufs)
    ensures Committable(old(cache.bufs), l, n, sector, pend) ==> ok && Available(cache.bufs, l.start)
  {
    assert 0 < l.size && l.start < |cache.disk| && n <= LOGSIZE && |blocks| == n;
    hide *;
    ghost var good := Committable(cache.bufs, l, n, sector, pend);
    ghost var disk0, bufs0 := cache.disk, cache.bufs;
    if good {
      HeadAvailable(bufs0, l, n, sector, pend);
    }
    recorded, d := false, 0;
    ok := WriteHead(cache, l, n, sector, pend);
    if !ok {
      return;
    }
    recorded := true;
    ghost var disk1, bufs1 := cache.disk, cache.bufs;
    if good {
      StillCommittable(bufs0, bufs1, l, n, sector, pend);
    }
    HeaderApart(l, disk0, disk1[l.start], n, sector, pend);
    ok, d := InstallTrans(cache, l, n, sector, pend);
    if !ok {
      return;
    }
    InstallsKeepHeader(l, disk1, cache.disk, n, sector, pend, blocks,
                       old(cache.writes) + [Write(l.start, disk1[l.start])], cache.writes);
    OthersKeptTrans(bufs0, bufs1, cache.bufs);
    if good {
      StillAvailable(bufs1, cache.bufs, l, n, sector, pend);
    }
  }

  /** The work of a commit (log.c:145-148): commit record, installation, cleared record. */
  method CommitWork(cache: Cache, l: Layout, n: nat, sector: seq<nat>, ghost blocks: seq<Block>,
                    ghost pend: map<nat, Block>)
    returns (ok: bool, ghost done: nat)
    requires cache.Valid() && Coherent(cache.bufs, cache.disk, pend)
    requires Listing(l, cache.disk, n, sector, pend) && |sector| == LOGSIZE && l.start !in pend
    requires LogBlocks(l, cache.disk, n) == blocks
    modifies cache
    ensures CommittedUpTo(old(cache.disk), old(cache.writes), cache.disk, cache.writes, l, old(cache.disk)[l.start],
                          sector[..n], blocks, ok, done)
    ensures ok ==> cache.Valid() && Coherent(cache.bufs, cache.disk, map[])
                   && OthersKept(old(cache.bufs), cache.bufs, HEAD) && NoneTaken(old(cache.bufs), cache.bufs)
    ensures Committable(old(cache.bufs), l, n, sector, pend) ==> ok
  {
    assert 0 < l.size && l.start < |cache.disk| && n <= LOGSIZE && |blocks| == n;
    hide *;
    ghost var disk0, writes0, bufs0, header := cache.disk, cache.writes, cache.bufs, cache.disk[l.start];
    ghost var recorded, d;
    ok, recorded, d := RecordAndInstall(cache, l, n, sector, blocks, pend);
    if recorded {
      CommitRecorded(disk0, writes0, cache.disk, cache.writes, l, header, sector[..n], blocks, d);
      done := 1 + d;
    } else {
      NotCommitted(disk0, writes0, l, header, sector[..n], blocks);
      done := 0;
    }
    if !ok {
      return;
    }
    ghost var bufs1, disk1, writes1 := cache.bufs, cache.disk, cache.writes;
    assert sector[..0] == [];
    ok := WriteHead(cache, l, 0, sector, map[]);
    if !ok {
      return;
    }
    CommitCleared(disk0, writes0, disk1, writes1, l, header, sector[..n], blocks);
    done := n + 2;
    OthersKeptTrans(bufs0, bufs1, cache.bufs);
  }

  /** A buffer in use and not held: clean, and equal to its sector. */
  predicate MatchesDisk(buf: Buf, disk: Sectors) {
    buf.dev != -1 ==> buf.sector < |disk| && !buf.dirty && buf.data == disk[buf.sector]
  }

  lemma {:induction false} CleanBuffers(bufs: seq<Buf>, disk: Sectors)
    requires Coherent(bufs, disk, map[])
    ensures forall b :: 0 <= b < NBUF && !bufs[b].busy ==> MatchesDisk(bufs[b], disk)
  {
    assert forall b :: 0 <= b < NBUF ==> Settled(bufs[b], disk, map[]);
  }

  /** The empty transaction. */
  lemma {:induction false} FreshTransaction(l: Layout, disk: Sectors)
    requires l.Fits(disk)
    ensures Acceptable(l, disk, []) && Logged([]) == [] && Pending([]) == map[]
    ensures LogWrites(l, []) == [] && Apply(disk, LogWrites(l, [])) == disk
  {
  }

  lemma {:induction false} EmptyCommit(l: Layout, disk: Sectors)
    requires l.Fits(disk) && Acceptable(l, disk, [])
    ensures TransWrites(l, disk, []) == [] && Apply(disk, []) == disk
  {
  }

  /** Boot: nobody holds a buffer, and nothing is pinned. */
  lemma {:induction false} IdleCache(was: seq<Buf>, now: seq<Buf>, disk: Sectors, l: Layout, n: nat, sector: seq<nat>)
    requires Idle(was) && NoneTaken(was, now) && Coherent(now, disk, map[]) && n <= |sector| && 0 < l.size
    ensures Installable(now, l, n, sector, map[]) && Available(now, l.start)
  {
    assert forall b :: 0 <= b < NBUF ==> !now[b].busy;
    RestingCache(now, disk);
    SpareAvailable(now, l.start);
  }

  lemma {:induction false} NoneBusy(bufs: seq<Buf>)
    requires Idle(bufs)
    ensures |Busy(bufs)| == 0
  {
    assert Busy(bufs) == {};
  }

  lemma {:induction false} IdleReads(bufs: seq<Buf>, disk: Sectors, l: Layout, sector: seq<nat>)
    requires Idle(bufs) && Coherent(bufs, disk, map[]) && 0 < l.size
    ensures Available(bufs, l.start)
  {
    OthersKeptRefl(bufs);
    IdleCache(bufs, bufs, disk, l, 0, sector);
  }

  lemma {:induction false} IdleStays(was: seq<Buf>, now: seq<Buf>)
    requires Idle(was) && NoneTaken(was, now)
    ensures Idle(now)
  {
  }

  lemma {:induction false} NothingDone(disk: Sectors, writes: seq<Write>, ws: seq<Write>)
    ensures Apply(disk, ws[..0]) == disk && writes + ws[..0] == writes
  {
  }

  /** When a commit can go through: nobody holds what it needs, and there is a buffer to spare; or
      nobody holds anything and the log is not larger than LOGSIZE, that is, than the cache. */
  lemma {:induction false} CommitCan(bufs: seq<Buf>, disk: Sectors, l: Layout, base: Sectors, tx: seq<Entry>, n: nat,
                                     sector: seq<nat>)
    requires Tracks(l, base, tx, n, sector, disk) && Coherent(bufs, disk, Pending(tx)) && AtMostOne(bufs)
    ensures n <= |sector| && (Clear(bufs, l, n, sector) && Spare(bufs) ==> Committable(bufs, l, n, sector, Pending(tx)))
    ensures Idle(bufs) && l.size <= LOGSIZE ==> Committable(bufs, l, n, sector, Pending(tx))
  {
    TracksFacts(l, base, tx, n, sector, disk);
    hide Tracks, Coherent, Spare, TwoSpare, Acceptable, Logged, LogTrace.Pending;
    assert forall i :: 0 <= i < n ==> sector[i] == Logged(tx)[i];
    if Idle(bufs) && l.size <= LOGSIZE {
      assert n <= l.Capacity() by {
        FewLogged(l, base, tx);
      }
      NoneBusy(bufs);
      SomeSpare(bufs, disk, Pending(tx), Logged(tx));
    }
  }

  lemma {:induction false} FewLogged(l: Layout, base: Sectors, tx: seq<Entry>)
    requires Acceptable(l, base, tx)
    ensures |Logged(tx)| <= l.Capacity()
  {
  }

  /** What CommitWork needs. */
  lemma {:induction false} CommitPre(l: Layout, base: Sectors, tx: seq<Entry>, n: nat, sector: seq<nat>, disk: Sectors)
    requires Tracks(l, base, tx, n, sector, disk)
    ensures l.Fits(base) && l.Fits(disk) && Ready(l, base) && Acceptable(l, base, tx)
            && disk == Apply(base, LogWrites(l, tx))
    ensures |sector| == LOGSIZE && n <= LOGSIZE && sector[..n] == Logged(tx) && (n == 0 <==> tx == [])
    ensures l.start !in Pending(tx) && Listing(l, disk, n, sector, Pending(tx))
    ensures LogBlocks(l, disk, n) == Contents(tx) && disk[l.start] == base[l.start]
  {
    CommitFacts(l, base, tx);
    TracksFacts(l, base, tx, n, sector, disk);
    FewLogged(l, base, tx);
    if n == 0 {
      EmptyTransaction(tx);
    }
    hide Logged, LogTrace.Pending, LogWrites, Apply, Contents, Acceptable, LogBlocks, IsHeader;
    forall i | 0 <= i < n
      ensures Home(l, disk, sector[i])
    {
      assert sector[i] == Logged(tx)[i];
    }
  }

  /** Where the writes of a transaction stand after the first ones of its commit. */
  ghost predicate Stands(l: Layout, base: Sectors, tx: seq<Entry>, before: seq<Write>, disk: Sectors,
                         writes: seq<Write>, ok: bool, done: nat)
    requires l.Fits(base) && Acceptable(l, base, tx)
  {
    var all := TransWrites(l, base, tx);
    && done <= |all| - |tx| && (ok ==> done == |all| - |tx|)
    && disk == Apply(base, all[..|tx| + done]) && writes == before + all[|tx|..|tx| + done]
  }

  lemma {:induction false} CommitStands(l: Layout, base: Sectors, tx: seq<Entry>, before: seq<Write>, disk: Sectors,
                                        writes: seq<Write>, ok: bool, done: nat)
    requires l.Fits(base) && Acceptable(l, base, tx) && tx != []
    requires CommittedUpTo(Apply(base, LogWrites(l, tx)), before, disk, writes, l, base[l.start], Logged(tx),
                           Contents(tx), ok, done)
    ensures Stands(l, base, tx, before, disk, writes, ok, done)
  {
    CommitWritesSplit(l, base, tx, done);
  }

  lemma {:induction false} EmptyStands(l: Layout, base: Sectors, tx: seq<Entry>, writes: seq<Write>)
    requires l.Fits(base) && Acceptable(l, base, tx) && tx == []
    ensures Stands(l, base, tx, writes, Apply(base, LogWrites(l, tx)), writes, true, 0)
  {
    FreshTransaction(l, base);
    EmptyCommit(l, base);
  }

  /** All of them: the transaction has happened. */
  lemma {:induction false} CommitStood(l: Layout, base: Sectors, tx: seq<Entry>, before: seq<Write>, disk: Sectors,
                                       writes: seq<Write>, done: nat, sector: seq<nat>)
    requires Ready(l, base) && base[l.start][0] == 0 && Acceptable(l, base, tx) && |sector| == LOGSIZE
    requires Stands(l, base, tx, before, disk, writes, true, done)
    ensures Tracks(l, disk, [], 0, sector, disk) && l.Fits(disk) && disk[l.start][0] == 0 && Pending([]) == map[]
    ensures SameHome(l, disk, Overlay(base, Pending(tx)))
  {
    var all := TransWrites(l, base, tx);
    assert all[..|tx| + done] == all;
    CommitDone(l, base, tx, sector, disk);
  }

  /** commit_trans but for the busy flag (log.c:144-149). */
  method CommitAll(cache: Cache, l: Layout, n: nat, sector: seq<nat>, ghost base: Sectors, ghost tx: seq<Entry>)
    returns (ok: bool, ghost done: nat)
    requires Tracks(l, base, tx, n, sector, cache.disk) && base[l.start][0] == 0
    requires cache.Valid() && Coherent(cache.bufs, cache.disk, Pending(tx))
    modifies cache
    ensures l.Fits(base) && Acceptable(l, base, tx) && n <= |sector|
    ensures Stands(l, base, tx, old(cache.writes), cache.disk, cache.writes, ok, done)
    ensures ok ==>
              && cache.Valid() && Coherent(cache.bufs, cache.disk, map[]) && Pending([]) == map[]
              && Tracks(l, cache.disk, [], 0, sector, cache.disk) && l.Fits(cache.disk) && cache.disk[l.start][0] == 0
              && SameHome(l, cache.disk, Overlay(base, Pending(tx)))
              && OthersKept(old(cache.bufs), cache.bufs, HEAD) && NoneTaken(old(cache.bufs), cache.bufs)
    ensures Clear(old(cache.bufs), l, n, sector) && Spare(old(cache.bufs)) ==> ok
    ensures Idle(old(cache.bufs)) && l.size <= LOGSIZE ==> ok
  {
    CommitPre(l, base, tx, n, sector, cache.disk);
    CommitCan(cache.bufs, cache.disk, l, base, tx, n, sector);
    OthersKeptRefl(cache.bufs);
    assert l.start < |base|;
    hide *;
    done := 0;
    ok := true;
    if n > 0 {
      ok, done := CommitWork(cache, l, n, sector, Contents(tx), LogTrace.Pending(tx));
      CommitStands(l, base, tx, old(cache.writes), cache.disk, cache.writes, ok, done);
    } else {
      FreshTransaction(l, base);
      EmptyStands(l, base, tx, cache.writes);
    }
    if ok {
      CommitStood(l, base, tx, old(cache.writes), cache.disk, cache.writes, done, sector);
    }
  }

  /** Installing what the header lists, and clearing it (log.c:125-127). */
  method InstallAndClear(cache: Cache, l: Layout, n: nat, sector: seq<nat>) returns (ok: bool, ghost done: nat)
    requires cache.Valid() && Coherent(cache.bufs, cache.disk, map[]) && Ready(l, cache.disk) && |sector| == LOGSIZE
             && n <= LOGSIZE
    requires sector[..n] == Listed(l, cache.disk, cache.disk[l.start])
    modifies cache
    ensures RecoveredUpTo(l, old(cache.disk), old(cache.writes), cache.disk, cache.writes, ok, done)
    ensures ok ==>
              && cache.Valid() && Coherent(cache.bufs, cache.disk, map[]) && Pending([]) == map[]
              && Tracks(l, cache.disk, [], 0, sector, cache.disk) && cache.disk[l.start][0] == 0
    ensures Idle(old(cache.bufs)) ==> ok
  {
    RecoverPre(l, cache.disk, n, sector);
    OthersKeptRefl(cache.bufs);
    assert 0 < l.size && l.start < |cache.disk|;
    hide *;
    ghost var bufs0, disk0, good := cache.bufs, cache.disk, Idle(cache.bufs);
    if good {
      IdleCache(bufs0, bufs0, disk0, l, n, sector);
    }
    ghost var writes0, blocks := cache.writes, LogBlocks(l, disk0, n);
    ok, done := InstallTrans(cache, l, n, sector, map[]);
    RecoveryPart(l, disk0, writes0, cache.disk, cache.writes, n, sector, done);
    if !ok {
      return;
    }
    if good {
      StillAvailable(bufs0, cache.bufs, l, n, sector, map[]);
    }
    InstallsKeepHeader(l, disk0, cache.disk, n, sector, map[], blocks, writes0, cache.writes);
    ghost var disk1, writes1 := cache.disk, cache.writes;
    assert sector[..0] == [];
    ok := WriteHead(cache, l, 0, sector, map[]);
    if !ok {
      return;
    }
    done := done + 1;
    RecoveryCleared(l, disk0, writes0, disk1, writes1, n, sector);
    RecoveryDone(l, disk0, sector, cache.disk);
  }

  /** The disk and the list of writes after the first writes of a recovery. */
  ghost predicate RecoveredUpTo(l: Layout, disk0: Sectors, writes0: seq<Write>, disk: Sectors, writes: seq<Write>,
                                ok: bool, done: nat)
    requires Ready(l, disk0)
  {
    var ws := RecoveryWrites(l, disk0);
    && done <= |ws| && (ok ==> done == |ws|)
    && disk == Apply(disk0, ws[..done]) && writes == writes0 + ws[..done]
  }

  lemma {:induction false} RecoverPre(l: Layout, disk: Sectors, n: nat, sector: seq<nat>)
    requires Ready(l, disk) && n <= |sector| && sector[..n] == Listed(l, disk, disk[l.start])
    ensures Listing(l, disk, n, sector, map[])
  {
    ListedAreHomes(l, disk);
    forall i | 0 <= i < n
      ensures Home(l, disk, sector[i])
    {
      assert sector[i] == sector[..n][i];
    }
  }

  lemma {:induction false} RecoveryPart(l: Layout, disk0: Sectors, writes0: seq<Write>, disk: Sectors,
                                        writes: seq<Write>, n: nat, sector: seq<nat>, d: nat)
    requires Ready(l, disk0) && n < l.size && n <= |sector| && sector[..n] == Listed(l, disk0, disk0[l.start])
    requires InstalledUpTo(disk0, writes0, disk, writes, sector[..n], LogBlocks(l, disk0, n), d)
    ensures RecoveredUpTo(l, disk0, writes0, disk, writes, false, d)
  {
    assert RecoveryWrites(l, disk0)[..d] == Installs(sector[..n], LogBlocks(l, disk0, n))[..d];
  }

  lemma {:induction false} RecoveryCleared(l: Layout, disk0: Sectors, writes0: seq<Write>, disk: Sectors,
                                           writes: seq<Write>, n: nat, sector: seq<nat>)
    requires Ready(l, disk0) && n <= |sector| && sector[..n] == Listed(l, disk0, disk0[l.start]) && |disk| == |disk0|
    requires RecoveredUpTo(l, disk0, writes0, disk, writes, false, n)
    ensures var cleared := PackHeader(disk0[l.start], []);
            && RecoveredUpTo(l, disk0, writes0, disk[l.start := cleared], writes + [Write(l.start, cleared)], true,
                             n + 1)
            && disk[l.start := cleared] == Apply(disk0, RecoveryWrites(l, disk0))
  {
    var ws, w := RecoveryWrites(l, disk0), Write(l.start, PackHeader(disk0[l.start], []));
    assert |ws| == n + 1 && ws == ws[..n] + [w] && ws[..n + 1] == ws;
    assert writes0 + ws[..n] + [w] == writes0 + ws;
    ApplyConcat(disk0, ws[..n], [w]);
    ApplyOne(disk, w);
  }

  class Log {
    const cache: Cache
    const layout: Layout
    var busy: bool
    var n: nat
    var sector: seq<nat>

    ghost var tx: seq<Entry>       // the log_write calls of the current transaction
    ghost var base: Sectors        // the disk when it began

    ghost predicate Valid()
      reads this, cache
    {
      && Tracks(layout, base, tx, n, sector, cache.disk)
      && base[layout.start][0] == 0
      && cache.Valid()
      && Coherent(cache.bufs, cache.disk, Pending(tx))
    }

    /** initlog (log.c:54-69), before recovery. */
    constructor (cache: Cache, layout: Layout)
      ensures this.cache == cache && this.layout == layout && !busy && n == 0 && |sector| == LOGSIZE
    {
      this.cache, this.layout := cache, layout;
      busy, n, sector := false, 0, seq(LOGSIZE, _ => 0);
      tx, base := [], [];
    }

    /** read_head (log.c:91-102). */
    method ReadHead() returns (ok: bool)
      requires cache.Valid() && Coherent(cache.bufs, cache.disk, map[]) && Ready(layout, cache.disk)
      requires |sector| == LOGSIZE
      modifies this`n, this`sector, cache
      ensures cache.disk == old(cache.disk) && cache.writes == old(cache.writes)
      ensures ok <==> Available(old(cache.bufs), layout.start)
      ensures ok ==> cache.Valid() && Coherent(cache.bufs, cache.disk, map[]) && |sector| == LOGSIZE
                     && n <= LOGSIZE && sector[..n] == Listed(layout, cache.disk, cache.disk[layout.start])
                     && OthersKept(old(cache.bufs), cache.bufs, HEAD) && NoneTaken(old(cache.bufs), cache.bufs)
    {
      hide Coherent, SameOthers, OthersKept, NoneTaken, Available, BufferCache.Linked;
      ghost var bufs0 := cache.bufs;
      var r := Hold(cache, layout.start, map[]);
      if !r.Buffer? {
        return false;
      }
      var lh := cache.bufs[r.b].data;
      ghost var secs := Listed(layout, cache.disk, cache.disk[layout.start]);
      n := lh[0];
      var i := 0;
      while i < n
        invariant 0 <= i <= n == |secs| && |sector| == LOGSIZE
        invariant sector[..i] == secs[..i]
        modifies this`sector
      {
        assert Home(layout, cache.disk, lh[1 + i]);
        sector := sector[i := lh[1 + i]];
        i := i + 1;
      }
      ghost var bufs1 := cache.bufs;
      Drop(cache, r.b, layout.start, map[]);
      SameOthersTrans(bufs0, bufs1, cache.bufs, {r.b}, {r.b});
      Released(bufs0, cache.bufs, {r.b});
      return true;
    }

    /** recover_from_log (log.c:123-128). `done` counts the sector writes made; a recovery that
        stops early has made a prefix of them. */
    method RecoverFromLog() returns (ok: bool, ghost done: nat)
      requires cache.Valid() && Coherent(cache.bufs, cache.disk, map[]) && Ready(layout, cache.disk)
      requires |sector| == LOGSIZE
      modifies this`n, this`sector, this`tx, this`base, cache
      ensures var ws := RecoveryWrites(layout, old(cache.disk));
              && done <= |ws| && (ok ==> done == |ws|)
              && cache.disk == Apply(old(cache.disk), ws[..done])
              && cache.writes == old(cache.writes) + ws[..done]
      ensures ok ==> Valid() && tx == [] && base == cache.disk
      ensures Idle(old(cache.bufs)) ==> ok
    {
      hide Coherent, NoneTaken, OthersKept, Available, Idle, Apply, RecoveryWrites, Listed, Tracks, LogTrace.Pending;
      ghost var bufs0, ws := cache.bufs, RecoveryWrites(layout, cache.disk);
      if Idle(bufs0) {
        IdleReads(bufs0, cache.disk, layout, sector);
      }
      done := 0;
      NothingDone(cache.disk, cache.writes, ws);
      ok := ReadHead();
      if !ok {
        return;
      }
      if Idle(bufs0) {
        IdleStays(bufs0, cache.bufs);
      }
      ok, done := InstallAndClear(cache, layout, n, sector);
      if ok {
        n, tx, base := 0, [], cache.disk;
      }
    }

    /** begin_trans (log.c:131-140), under log.lock. False: the caller sleeps and tries again. */
    method BeginTrans() returns (ok: bool)
      modifies this`busy
      ensures ok == !old(busy) && busy
    {
      if busy {
        return false;
      }
      busy := true;
      return true;
    }

    /** commit_trans (log.c:143-155). `done` counts the sector writes made. */
    method CommitTrans() returns (ok: bool, ghost done: nat)
      requires Valid()
      modifies this`n, this`busy, this`tx, this`base, cache
      ensures var all := TransWrites(layout, old(base), old(tx));
              && done <= |all| - |old(tx)| && (ok ==> done == |all| - |old(tx)|)
              && cache.disk == Apply(old(base), all[..|old(tx)| + done])
              && cache.writes == old(cache.writes) + all[|old(tx)|..|old(tx)| + done]
      ensures ok ==>
                && Valid() && tx == [] && base == cache.disk && !busy
                && SameHome(layout, cache.disk, Overlay(old(base), Pending(old(tx))))
                && OthersKept(old(cache.bufs), cache.bufs, HEAD) && NoneTaken(old(cache.bufs), cache.bufs)
                && forall b :: 0 <= b < NBUF && !cache.bufs[b].busy ==> MatchesDisk(cache.bufs[b], cache.disk)
      ensures old(n <= |sector| && Clear(cache.bufs, layout, n, sector) && Spare(cache.bufs)) ==> ok
      ensures Idle(old(cache.bufs)) && layout.size <= LOGSIZE ==> ok
    {
      hide Logged, LogTrace.Pending, Apply, TransWrites, Coherent, OthersKept, NoneTaken, Overlay, SameHome, Clear,
           Spare, Idle, Tracks, BufferCache.Linked, Acceptable, AtMostOne, MatchesDisk;
      ok, done := CommitAll(cache, layout, n, sector, base, tx);
      if ok {
        CleanBuffers(cache.bufs, cache.disk);
        n, tx, base := 0, [], cache.disk;
        busy := false;
      }
    }

    /** log_write (log.c:166-194). False is a panic, or a sleep on the log block's buffer. */
    method LogWrite(b: nat) returns (ok: bool)
      requires Valid() && b < NBUF && cache.bufs[b].busy && cache.bufs[b].valid
      requires cache.bufs[b].dev == ROOTDEV && Home(layout, base, cache.bufs[b].sector)
      modifies this`n, this`sector, this`tx, cache
      ensures ok <==> busy && old(n) < layout.Capacity()
                      && Available(old(cache.bufs), layout.start + 1 + Slot(old(Logged(tx)), old(cache.bufs[b].sector)))
      ensures (&& busy && old(n) < layout.Capacity() && old(n + |Busy(cache.bufs)|) < NBUF
               && forall s :: layout.Contains(s) ==> NotHeld(old(cache.bufs), s)) ==> ok
      ensures ok ==>
                && Valid()
                && var buf := old(cache.bufs[b]);
                   && tx == old(tx) + [Entry(buf.sector, buf.data)]
                   && cache.writes == old(cache.writes)
                        + [Write(layout.start + 1 + Slot(old(Logged(tx)), buf.sector), buf.data)]
                   && cache.bufs[b].dirty && Held(cache.bufs, cache.disk, Pending(tx), b, buf.sector)
                   && OthersKept(old(cache.bufs), cache.bufs, b) && NoneTaken(old(cache.bufs), cache.bufs)
      ensures !ok ==> cache.disk == old(cache.disk) && cache.writes == old(cache.writes)
    {
      hide Logged, LogTrace.Pending, LogWrites, Apply, Slot, Coherent, OthersKept, NoneTaken, Available, Held, NotHeld,
           Busy, Ready, Acceptable, Tracks;
      TracksFacts(layout, base, tx, n, sector, cache.disk);
      if n >= LOGSIZE || n >= layout.size - 1 {
        return false;
      }
      if !busy {
        return false;
      }
      var i := FindSlot(cache.bufs[b].sector);
      ghost var e := Entry(cache.bufs[b].sector, cache.bufs[b].data);
      LogSectorFree(layout, base, tx, i, e.sector);
      if n + |Busy(cache.bufs)| < NBUF && forall s :: layout.Contains(s) ==> NotHeld(cache.bufs, s) {
        LogSectorAvailable(cache.bufs, cache.disk, layout, tx, i);
      }
      TracksAppend(layout, base, tx, n, sector, cache.disk, e, i);
      sector := sector[i := cache.bufs[b].sector];
      ok := CopyToLog(cache, b, layout.start + i + 1, LogTrace.Pending(tx));
      if ok {
        tx := tx + [e];
        if i == n {
          n := n + 1;
        }
      }
    }

    method FindSlot(s: nat) returns (i: nat)
      requires |sector| == LOGSIZE && n <= LOGSIZE && sector[..n] == Logged(tx)
      ensures i <= n && i == Slot(Logged(tx), s)
    {
      i := 0;
      while i < n && sector[i] != s
        invariant 0 <= i <= n && s !in sector[..i]
      {
        i := i + 1;
      }
      assert sector[..n][..i] == sector[..i];
      SlotFound(Logged(tx), s, i);
    }
  }
}
