/** The code of log.c over one in-memory log: its loops are proved against the disks
    and lists of LogFormat, and its operations against the events of LogMachine. */
module Log {
  import opened Basics
  import opened Words
  import opened LogFormat
  import LogMachine

  // ---- the disks a loop leaves behind, one per write ----

  ghost function CopyTrace(g: Geometry, d: Disk, lh: seq<nat>, c: Cache, k: nat): (r: seq<Disk>)
    requires DiskOk(g, d) && HeaderOk(g, lh) && CacheOk(lh, c) && k <= |lh|
    ensures |r| == k && forall i | 0 <= i < k :: r[i] == LogCopied(g, d, lh, c, i + 1)
  {
    if k == 0 then [] else CopyTrace(g, d, lh, c, k - 1) + [LogCopied(g, d, lh, c, k)]
  }

  ghost function InstallTrace(g: Geometry, d: Disk, lh: seq<nat>, k: nat): (r: seq<Disk>)
    requires DiskOk(g, d) && HeaderOk(g, lh) && k <= |lh|
    ensures |r| == k && forall i | 0 <= i < k :: r[i] == Install(g, d, lh, i + 1)
  {
    if k == 0 then [] else InstallTrace(g, d, lh, k - 1) + [Install(g, d, lh, k)]
  }

  /** The pinned buffers once the first k logged blocks have been written home. */
  function Unpinned(c: Cache, lh: seq<nat>, k: nat): (r: Cache)
    requires k <= |lh|
    ensures forall b | b in r :: b in c && b !in lh[..k]
  {
    if k == 0 then c else
      assert lh[..k] == lh[..k - 1] + [lh[k - 1]];
      Unpinned(c, lh, k - 1) - {lh[k - 1]}
  }

  /** Every disk `commit` passes through. */
  ghost function CommitTrace(g: Geometry, d: Disk, lh: seq<nat>, c: Cache): (r: seq<Disk>)
    requires DiskOk(g, d) && HeaderOk(g, lh) && CacheOk(lh, c)
    ensures |r| == 2 * |lh| + 2
  {
    var w := WriteHead(g, LogCopied(g, d, lh, c, |lh|), lh);
    CopyTrace(g, d, lh, c, |lh|) + [w] + InstallTrace(g, w, lh, |lh|)
    + [WriteHead(g, Install(g, w, lh, |lh|), [])]
  }

  /** Every disk `recover_from_log` passes through. */
  ghost function RecoveryTrace(g: Geometry, d: Disk): (r: seq<Disk>)
    requires HeadOk(g, d)
    ensures |r| == |Header(g, d)| + 1
  {
    var lh := Header(g, d);
    InstallTrace(g, d, lh, |lh|) + [WriteHead(g, Install(g, d, lh, |lh|), [])]
  }

  lemma CommitTraceAt(g: Geometry, d: Disk, lh: seq<nat>, c: Cache, i: nat)
    requires HeadOk(g, d) && Header(g, d) == [] && HeaderOk(g, lh) && CacheOk(lh, c)
    requires i < 2 * |lh| + 2
    ensures CommitTrace(g, d, lh, c)[i] == CommitDisk(g, d, lh, c, i + 1)
  {
    var n := |lh|;
    var w := WriteHead(g, LogCopied(g, d, lh, c, n), lh);
    var head := CopyTrace(g, d, lh, c, n) + [w];
    var all := head + InstallTrace(g, w, lh, n);
    if i < n {
      assert all[i] == head[i] == CopyTrace(g, d, lh, c, n)[i];
    } else if i == n {
      assert all[i] == head[i] == w;
      assert Install(g, w, lh, 0) == w;
    } else if i < 2 * n + 1 {
      assert all[i] == InstallTrace(g, w, lh, n)[i - n - 1];
    }
  }

  /** A crash at any point of `commit`, then any number of crashes during recovery:
      the transaction is absent before the header write and complete from it on. */
  lemma CommitCrashSafe(g: Geometry, d: Disk, lh: seq<nat>, c: Cache, i: nat, ks: seq<nat>)
    requires HeadOk(g, d) && Header(g, d) == [] && HeaderOk(g, lh) && CacheOk(lh, c)
    requires i < 2 * |lh| + 2
    ensures var x := CommitTrace(g, d, lh, c)[i];
            && HeadOk(g, x)
            && var r := Recovered(g, CrashedRecoveries(g, x, ks));
               && (i < |lh| ==> SameHome(g, r, d))
               && (i >= |lh| ==> Applied(g, d, lh, c, r))
  {
    CommitTraceAt(g, d, lh, c, i);
    CommitAtomic(g, d, lh, c, i + 1, ks);
  }

  lemma RecoveryTraceAt(g: Geometry, d: Disk, i: nat)
    requires HeadOk(g, d) && i < |Header(g, d)| + 1
    ensures RecoveryTrace(g, d)[i] == RecoveryDisk(g, d, i + 1)
  {
  }

  /** A crash at any point of recovery is repaired by the next recovery. */
  lemma RecoveryCrashSafe(g: Geometry, d: Disk, i: nat, ks: seq<nat>)
    requires HeadOk(g, d) && i < |Header(g, d)| + 1
    ensures var x := RecoveryTrace(g, d)[i];
            && HeadOk(g, x)
            && SameHome(g, Recovered(g, CrashedRecoveries(g, x, ks)), Recovered(g, d))
  {
    RecoveryTraceAt(g, d, i);
    assert CrashedRecoveries(g, d, [i + 1] + ks) == CrashedRecoveries(g, RecoveryDisk(g, d, i + 1), ks) by {
      assert ([i + 1] + ks)[1..] == ks;
    }
    RecoveryIdempotent(g, d, [i + 1] + ks);
  }

  /** A finished commit has put every logged block in its home place. */
  lemma CommitFinished(g: Geometry, d: Disk, lh: seq<nat>, c: Cache)
    requires HeadOk(g, d) && Header(g, d) == [] && HeaderOk(g, lh) && CacheOk(lh, c)
    ensures Applied(g, d, lh, c, CommitDisk(g, d, lh, c, 2 * |lh| + 2))
  {
    CommitRecoverable(g, d, lh, c, 2 * |lh| + 2);
  }

  // ---- commit and recovery as runs of the machine ----

  ghost function Times(e: LogMachine.Event, k: nat): (r: seq<LogMachine.Event>)
    ensures |r| == k && forall x | x in r :: x == e
  {
    if k == 0 then [] else Times(e, k - 1) + [e]
  }

  /** What commit does, one event per disk write. */
  ghost function CommitEvents(n: nat): (r: seq<LogMachine.Event>)
    ensures forall e | e in r :: !e.Locked?
  {
    if n == 0 then [LogMachine.CommitNothing]
    else Times(LogMachine.CopyBlock, n) + [LogMachine.CommitHead]
         + Times(LogMachine.InstallBlock, n) + [LogMachine.EraseHead]
  }

  ghost function RecoverEvents(n: nat): (r: seq<LogMachine.Event>)
    ensures forall e | e in r :: !e.Locked?
  {
    [LogMachine.ReadHead] + Times(LogMachine.RecoverBlock, n) + [LogMachine.RecoverErase]
  }

  lemma TimesNext(g: Geometry, s: LogMachine.State, e: LogMachine.Event, k: nat, x: LogMachine.State)
    requires LogMachine.Exec(g, s, Times(e, k)) == Some(x) && LogMachine.Enabled(g, x, e)
    ensures LogMachine.Exec(g, s, Times(e, k + 1)) == Some(LogMachine.Next(g, x, e))
  {
    LogMachine.ExecSnoc(g, s, Times(e, k), e);
  }

  ghost function Copied(g: Geometry, s: LogMachine.State, k: nat): LogMachine.State
    requires DiskOk(g, s.disk) && HeaderOk(g, s.lh) && CacheOk(s.lh, s.pinned) && k <= |s.lh|
  {
    s.(disk := LogCopied(g, s.disk, s.lh, s.pinned, k), phase := LogMachine.CopyingLog(k))
  }

  lemma {:induction false} CopyRun(g: Geometry, s: LogMachine.State, k: nat)
    requires DiskOk(g, s.disk) && HeaderOk(g, s.lh) && CacheOk(s.lh, s.pinned) && k <= |s.lh|
    requires s.phase == LogMachine.CopyingLog(0)
    ensures LogMachine.Exec(g, s, Times(LogMachine.CopyBlock, k)) == Some(Copied(g, s, k))
  {
    if k > 0 {
      CopyRun(g, s, k - 1);
      TimesNext(g, s, LogMachine.CopyBlock, k - 1, Copied(g, s, k - 1));
    }
  }

  ghost function Installed(g: Geometry, s: LogMachine.State, k: nat): LogMachine.State
    requires DiskOk(g, s.disk) && HeaderOk(g, s.lh) && k <= |s.lh|
  {
    s.(disk := Install(g, s.disk, s.lh, k), pinned := Unpinned(s.pinned, s.lh, k), phase := LogMachine.Installing(k))
  }

  lemma {:induction false} InstallRun(g: Geometry, s: LogMachine.State, k: nat)
    requires DiskOk(g, s.disk) && HeaderOk(g, s.lh) && k <= |s.lh|
    requires s.phase == LogMachine.Installing(0)
    ensures LogMachine.Exec(g, s, Times(LogMachine.InstallBlock, k)) == Some(Installed(g, s, k))
  {
    if k > 0 {
      InstallRun(g, s, k - 1);
      TimesNext(g, s, LogMachine.InstallBlock, k - 1, Installed(g, s, k - 1));
    }
  }

  ghost function Reinstalled(g: Geometry, s: LogMachine.State, k: nat): LogMachine.State
    requires DiskOk(g, s.disk) && HeaderOk(g, s.lh) && k <= |s.lh|
  {
    s.(disk := Install(g, s.disk, s.lh, k), phase := LogMachine.Recovering(k))
  }

  lemma {:induction false} RecoverRun(g: Geometry, s: LogMachine.State, k: nat)
    requires DiskOk(g, s.disk) && HeaderOk(g, s.lh) && k <= |s.lh|
    requires s.phase == LogMachine.Recovering(0)
    ensures LogMachine.Exec(g, s, Times(LogMachine.RecoverBlock, k)) == Some(Reinstalled(g, s, k))
  {
    if k > 0 {
      RecoverRun(g, s, k - 1);
      TimesNext(g, s, LogMachine.RecoverBlock, k - 1, Reinstalled(g, s, k - 1));
    }
  }

  /** The machine's commit, run to its end. */
  lemma CommitRun(g: Geometry, s: LogMachine.State) returns (r: LogMachine.State)
    requires HeadOk(g, s.disk) && Header(g, s.disk) == [] && HeaderOk(g, s.lh) && CacheOk(s.lh, s.pinned)
    requires s.phase == LogMachine.CopyingLog(0)
    ensures LogMachine.Exec(g, s, CommitEvents(|s.lh|)) == Some(r)
    ensures r.lh == [] && r.phase.Finishing? && r.outstanding == s.outstanding && r.committing == s.committing
    ensures s.lh == [] ==> r.disk == s.disk && r.pinned == s.pinned
    ensures s.lh != [] ==>
              && r.disk == CommitDisk(g, s.disk, s.lh, s.pinned, 2 * |s.lh| + 2)
              && r.pinned == Unpinned(s.pinned, s.lh, |s.lh|)
  {
    var n := |s.lh|;
    if n == 0 {
      r := LogMachine.CommitNothingStep(s);
      LogMachine.ExecSnoc(g, s, [], LogMachine.CommitNothing);
      assert [] + [LogMachine.CommitNothing] == CommitEvents(0);
    } else {
      var es := Times(LogMachine.CopyBlock, n);
      CopyRun(g, s, n);
      LogMachine.ExecSnoc(g, s, es, LogMachine.CommitHead);
      es := es + [LogMachine.CommitHead];
      var w := LogMachine.CommitHeadStep(g, Copied(g, s, n));
      InstallRun(g, w, n);
      LogMachine.ExecAppend(g, s, es, Times(LogMachine.InstallBlock, n));
      es := es + Times(LogMachine.InstallBlock, n);
      LogMachine.ExecSnoc(g, s, es, LogMachine.EraseHead);
      r := LogMachine.EraseStep(g, Installed(g, w, n));
    }
  }

  lemma RecoveryRun(g: Geometry, s: LogMachine.State) returns (r: LogMachine.State)
    requires HeadOk(g, s.disk) && s.phase.Down?
    ensures LogMachine.Exec(g, s, RecoverEvents(|Header(g, s.disk)|)) == Some(r)
    ensures r == s.(disk := Recovered(g, s.disk), lh := [], phase := LogMachine.Running)
  {
    var n := |Header(g, s.disk)|;
    assert [] + [LogMachine.ReadHead] == [LogMachine.ReadHead];
    LogMachine.ExecSnoc(g, s, [], LogMachine.ReadHead);
    var h := LogMachine.ReadHeadStep(g, s);
    RecoverRun(g, h, n);
    var es := [LogMachine.ReadHead] + Times(LogMachine.RecoverBlock, n);
    LogMachine.ExecAppend(g, s, [LogMachine.ReadHead], Times(LogMachine.RecoverBlock, n));
    LogMachine.ExecSnoc(g, s, es, LogMachine.RecoverErase);
    r := LogMachine.RecoverEraseStep(g, Reinstalled(g, h, n));
  }

  /** In every state of the machine where a commit begins, Commit can be called. */
  lemma ReadyToCommit(g: Geometry, init: Disk, s: LogMachine.State)
    requires LogMachine.Inv(g, init, s) && s.phase.CopyingLog?
    ensures HeadOk(g, s.disk) && Header(g, s.disk) == []
    ensures HeaderOk(g, s.lh) && CacheOk(s.lh, s.pinned)
    ensures forall b | b in s.pinned :: Home(g, b) && b in s.lh
  {
    forall b | b in s.pinned
      ensures Home(g, b) && b in s.lh
    {
      assert LogMachine.InTail(s.lh, 0, b);
    }
  }

  /** `disk` is the device, `pinned` the B_DIRTY buffers above it, and `trace` every
      disk a crash could have left so far. `st` is the state
      of the machine that the fields here are part of; every operation is one or more of
      its events. begin_op and end_op return where the source sleeps or goes on to
      commit. */
  class RedoLog {
    const g: Geometry
    var disk: Disk
    var pinned: Cache
    var n: nat
    const block: array<nat>
    var outstanding: nat
    var committing: bool
    ghost var trace: seq<Disk>
    ghost var st: LogMachine.State

    ghost predicate Shape()
      reads this, block
    {
      DiskOk(g, disk) && block.Length == LOGSIZE && n <= LOGSIZE
    }

    ghost predicate Valid()
      reads this, block
    {
      && Shape() && st.disk == disk && st.pinned == pinned && st.lh == Lh()
      && st.outstanding == outstanding && st.committing == committing
    }

    /** log.lh: the block numbers logged so far. */
    ghost function Lh(): seq<nat>
      reads this, block
      requires Shape()
    {
      block[..n]
    }

    /** Switched on over disk d, with room for `procs` processes. */
    constructor (g: Geometry, d: Disk, ghost procs: nat)
      requires DiskOk(g, d)
      ensures Valid() && fresh(block) && this.g == g
      ensures st == LogMachine.Boot(d, procs) && trace == [d]
    {
      this.g := g;
      disk := d;
      pinned := map[];
      n := 0;
      block := new nat[LOGSIZE](i => 0);
      outstanding := 0;
      committing := false;
      trace := [d];
      st := LogMachine.Boot(d, procs);
    }

    /** One synchronous block write; the buffer written is clean afterwards. */
    method Bwrite(b: nat, data: Block)
      requires Shape() && b < g.blocks
      modifies this`disk, this`pinned, this`trace
      ensures Shape() && disk == old(disk)[b := data] && pinned == old(pinned) - {b}
      ensures trace == old(trace) + [disk]
    {
      disk := disk[b := data];
      pinned := pinned - {b};
      trace := trace + [disk];
    }

    method WriteLog()
      requires Shape() && HeaderOk(g, Lh()) && CacheOk(Lh(), pinned)
      requires forall b | b in pinned :: Home(g, b)
      modifies this`disk, this`pinned, this`trace
      ensures Shape() && pinned == old(pinned)
      ensures disk == LogCopied(g, old(disk), Lh(), pinned, n)
      ensures trace == old(trace) + CopyTrace(g, old(disk), Lh(), pinned, n)
    {
      ghost var lh, d, c, t := Lh(), disk, pinned, trace;
      var tail := 0;
      while tail < n
        invariant tail <= n && Shape() && Lh() == lh && pinned == c
        invariant disk == LogCopied(g, d, lh, c, tail)
        invariant trace == t + CopyTrace(g, d, lh, c, tail)
      {
        var to := g.start + tail + 1;
        assert !Home(g, to) && block[tail] == lh[tail];
        Bwrite(to, pinned[block[tail]]);
        assert pinned == c;
        assert disk == LogCopied(g, d, lh, c, tail + 1);
        tail := tail + 1;
      }
    }

    method WriteHeader()
      requires Shape() && HeaderOk(g, Lh())
      requires forall b | b in pinned :: Home(g, b)
      modifies this`disk, this`pinned, this`trace
      ensures Shape() && pinned == old(pinned) && disk == WriteHead(g, old(disk), Lh())
      ensures trace == old(trace) + [disk]
    {
      var hb := PutWord(disk[g.start], 0, n);
      var i := 0;
      while i < n
        invariant i <= n && hb == EncodeBlocks(PutWord(disk[g.start], 0, n), Lh(), i)
      {
        hb := PutWord(hb, i + 1, block[i]);
        i := i + 1;
      }
      assert !Home(g, g.start);
      Bwrite(g.start, hb);
      assert pinned == old(pinned);
    }

    method ReadHeader()
      requires Shape() && HeadOk(g, disk)
      modifies this`n, block
      ensures Shape() && Lh() == Header(g, disk)
    {
      var hb := disk[g.start];
      n := GetWord(hb, 0);
      var i := 0;
      while i < n
        invariant i <= n == |DecodeHead(hb)| && Shape() && hb == disk[g.start]
        invariant forall k | 0 <= k < i :: block[k] == DecodeHead(hb)[k]
      {
        block[i] := GetWord(hb, i + 1);
        i := i + 1;
      }
    }

    method InstallTrans()
      requires Shape() && HeaderOk(g, Lh())
      modifies this`disk, this`pinned, this`trace
      ensures Shape() && disk == Install(g, old(disk), Lh(), n)
      ensures pinned == Unpinned(old(pinned), Lh(), n)
      ensures trace == old(trace) + InstallTrace(g, old(disk), Lh(), n)
    {
      ghost var lh, d, c, t := Lh(), disk, pinned, trace;
      var tail := 0;
      while tail < n
        invariant tail <= n && Shape() && Lh() == lh
        invariant disk == Install(g, d, lh, tail) && pinned == Unpinned(c, lh, tail)
        invariant trace == t + InstallTrace(g, d, lh, tail)
      {
        assert Home(g, lh[tail]) && block[tail] == lh[tail];
        var lbuf := disk[g.start + tail + 1];
        Bwrite(block[tail], lbuf);
        assert disk == Install(g, d, lh, tail + 1);
        tail := tail + 1;
      }
    }

    /** `commit`: the machine's commit, event by event. The disk passes through exactly
        the disks of CommitTrace, and ends with the whole transaction in place and
        nothing pinned. */
    method Commit()
      requires Valid() && st.phase == LogMachine.CopyingLog(0) && HeaderOk(g, Lh()) && CacheOk(Lh(), pinned)
      requires forall b | b in pinned :: Home(g, b) && b in Lh()
      requires HeadOk(g, disk) && Header(g, disk) == []
      modifies this`disk, this`pinned, this`trace, this`n, this`st
      ensures Valid() && n == 0 && pinned == map[]
      ensures LogMachine.Exec(g, old(st), CommitEvents(old(n))) == Some(st)
      ensures trace == old(trace) + if old(n) == 0 then [] else CommitTrace(g, old(disk), old(Lh()), old(pinned))
      ensures Applied(g, old(disk), old(Lh()), old(pinned), disk)
    {
      ghost var r := CommitRun(g, st);
      assert n == 0 ==> pinned.Keys == {};
      CommitDisks();
      assert Lh() == [];
      st := r;
    }

    /** The writes of `commit`. */
    method CommitDisks()
      requires Shape() && HeaderOk(g, Lh()) && CacheOk(Lh(), pinned)
      requires forall b | b in pinned :: Home(g, b) && b in Lh()
      requires HeadOk(g, disk) && Header(g, disk) == []
      modifies this`disk, this`pinned, this`trace, this`n
      ensures Shape() && n == 0 && pinned == map[]
      ensures old(n) == 0 ==> disk == old(disk) && trace == old(trace)
      ensures old(n) != 0 ==>
                && trace == old(trace) + CommitTrace(g, old(disk), old(Lh()), old(pinned))
                && disk == CommitDisk(g, old(disk), old(Lh()), old(pinned), 2 * old(n) + 2)
                && pinned == Unpinned(old(pinned), old(Lh()), old(n))
      ensures Applied(g, old(disk), old(Lh()), old(pinned), disk)
    {
      ghost var lh, d, c, t := Lh(), disk, pinned, trace;
      if n > 0 {
        WriteLog();
        WriteHeader();
        ghost var w := WriteHead(g, LogCopied(g, d, lh, c, |lh|), lh);
        assert Lh() == lh && disk == w && trace == t + (CopyTrace(g, d, lh, c, |lh|) + [w]);
        Erase(t + (CopyTrace(g, d, lh, c, |lh|) + [w]), w, lh);
        CommitFinished(g, d, lh, c);
        SeqAssoc(t, CopyTrace(g, d, lh, c, |lh|) + [w], InstallTrace(g, w, lh, |lh|), [disk]);
      }
      assert pinned.Keys == {};
    }

    /** The common end of commit and recovery: install, then clear the header. */
    method Erase(ghost t: seq<Disk>, ghost d: Disk, ghost lh: seq<nat>)
      requires Shape() && HeaderOk(g, Lh()) && t == trace && d == disk && lh == Lh()
      requires forall b | b in pinned :: b in Lh()
      modifies this`disk, this`pinned, this`trace, this`n
      ensures Shape() && n == 0 && pinned == map[] == Unpinned(old(pinned), lh, |lh|)
      ensures disk == WriteHead(g, Install(g, d, lh, |lh|), [])
      ensures trace == t + InstallTrace(g, d, lh, |lh|) + [disk]
    {
      InstallTrans();
      assert lh[..|lh|] == lh && pinned.Keys == {};
      n := 0;
      assert Lh() == [];
      WriteHeader();
      assert pinned.Keys == {};
    }

    /** `recover_from_log`: the machine's recovery, event by event, with the disks a
        crash during it could leave. */
    method RecoverFromLog()
      requires Valid() && st.phase.Down? && HeadOk(g, disk) && pinned == map[]
      modifies this`disk, this`pinned, this`trace, this`n, this`st, block
      ensures Valid() && n == 0 && pinned == map[] && disk == Recovered(g, old(disk))
      ensures LogMachine.Exec(g, old(st), RecoverEvents(|Header(g, old(disk))|)) == Some(st)
      ensures trace == old(trace) + RecoveryTrace(g, old(disk))
    {
      ghost var r := RecoveryRun(g, st);
      RecoverDisks();
      assert Lh() == [];
      st := r;
    }

    /** The writes of `recover_from_log`. */
    method RecoverDisks()
      requires Shape() && HeadOk(g, disk) && pinned == map[]
      modifies this`disk, this`pinned, this`trace, this`n, block
      ensures Shape() && n == 0 && pinned == map[] && disk == Recovered(g, old(disk))
      ensures trace == old(trace) + RecoveryTrace(g, old(disk))
    {
      ReadHeader();
      Erase(trace, disk, Lh());
    }

    /** log_write by caller p, its tests and its section under the lock taken together;
        false is either panic. Inside an operation it is the machine's two events. */
    method LogWrite(ghost p: nat, b: nat, data: Block) returns (ok: bool)
      requires Shape()
      modifies this`n, this`pinned, this`st, block
      ensures Shape() && (ok <==> old(n) < LOGSIZE && old(n) < g.size - 1 && outstanding >= 1)
      ensures ok ==> Lh() == LogMachine.Absorb(old(Lh()), b) && pinned == old(pinned)[b := data]
      ensures !ok ==> Lh() == old(Lh()) && pinned == old(pinned)
      ensures old(Valid()) && LogMachine.CanCheck(g, old(st), p, b, data) ==>
                && Valid()
                && var c := LogMachine.CheckStep(g, old(st), p, b, data);
                   if ok then LogMachine.CanLock(c, p) && st == LogMachine.LockedStep(c, p)
                   else st == c && c.phase.Panicked?
    {
      if Valid() && LogMachine.CanCheck(g, st, p, b, data) {
        st := LogMachine.CheckStep(g, st, p, b, data);
        if !st.phase.Panicked? {
          st := LogMachine.LockedStep(st, p);
        }
      }
      ok := Append(b, data);
    }

    /** The body of log_write. */
    method Append(b: nat, data: Block) returns (ok: bool)
      requires Shape()
      modifies this`n, this`pinned, block
      ensures Shape() && (ok <==> old(n) < LOGSIZE && old(n) < g.size - 1 && outstanding >= 1)
      ensures ok ==> Lh() == LogMachine.Absorb(old(Lh()), b) && pinned == old(pinned)[b := data]
      ensures !ok ==> Lh() == old(Lh()) && pinned == old(pinned)
    {
      if n >= LOGSIZE || n >= g.size - 1 {
        return false;
      }
      if outstanding < 1 {
        return false;
      }
      var i := 0;
      while i < n && block[i] != b
        invariant i <= n && forall k | 0 <= k < i :: block[k] != b
      {
        i := i + 1;
      }
      assert i == n ==> b !in Lh();
      block[i] := b;
      if i == n {
        n := n + 1;
      }
      pinned := pinned[b := data];
      ok := true;
    }

    /** One turn of begin_op's loop by caller p: admitted, or the caller sleeps. */
    method BeginOp(ghost p: nat) returns (admitted: bool)
      requires Valid() && LogMachine.CanBegin(st, p)
      modifies this`outstanding, this`st
      ensures Valid() && st == LogMachine.BeginStep(old(st), p)
      ensures if admitted then st.callers[p].Inside? else st.callers[p].Waiting?
    {
      st := LogMachine.BeginStep(st, p);
      if committing {
        admitted := false;
      } else if n + (outstanding + 1) * MAXOPBLOCKS > LOGSIZE {
        admitted := false;
      } else {
        outstanding := outstanding + 1;
        admitted := true;
      }
    }

    /** The locked part of end_op by caller p. ok is false for its panic, and the caller
        told to commit is the machine's committer. */
    method EndOp(ghost p: nat) returns (ok: bool, doCommit: bool)
      requires Valid() && LogMachine.CanEnd(st, p)
      modifies this`outstanding, this`committing, this`st
      ensures Valid() && st == LogMachine.EndStep(old(st), p)
      ensures ok <==> !old(st).committing
      ensures doCommit <==> ok && st.phase == LogMachine.CopyingLog(0) && st.committing
    {
      st := LogMachine.EndStep(st, p);
      outstanding := outstanding - 1;
      if committing {
        return false, false;
      }
      ok, doCommit := true, outstanding == 0;
      if doCommit {
        committing := true;
      }
    }

    /** The end of end_op after a commit. */
    method EndCommit()
      requires Valid() && st.phase.Finishing?
      modifies this`committing, this`st
      ensures Valid() && st == LogMachine.FinishStep(old(st))
    {
      st := LogMachine.FinishStep(st);
      committing := false;
    }
  }

  lemma SeqAssoc<T>(a: seq<T>, b: seq<T>, c: seq<T>, d: seq<T>)
    ensures a + b + c + d == a + (b + c + d)
  {
  }
}
