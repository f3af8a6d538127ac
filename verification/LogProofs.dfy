/** Every step of the log keeps its invariants; crash safety and operation atomicity
    over every run follow. */
module LogProofs {
  import opened Basics
  import opened Words
  import opened LogFormat
  import opened LogMachine

  // ---- small facts ----

  lemma NoneInside(s: State)
    requires BudgetInv(s) && s.outstanding == 0
    ensures forall p | 0 <= p < |s.callers| :: !s.callers[p].Inside?
  {
    forall p | 0 <= p < |s.callers|
      ensures !s.callers[p].Inside?
    {
      SumAtLeast(One, s.callers, p);
    }
  }

  lemma SomeoneInside(s: State, p: nat)
    requires BudgetInv(s) && p < |s.callers| && s.callers[p].Inside?
    ensures s.outstanding >= 1 && !s.committing
  {
    SumAtLeast(One, s.callers, p);
  }

  lemma {:induction false} OfFresh(ws: seq<Write>, o: nat)
    requires forall w | w in ws :: w.op != o
    ensures Of(ws, o) == []
    decreases |ws|
  {
    if ws != [] {
      OfFresh(ws[..|ws| - 1], o);
    }
  }

  // ---- counting ----

  lemma BeginKeepsBudget(g: Geometry, s: State, p: nat, r: State)
    requires BudgetInv(s) && CanBegin(s, p)
    requires r == BeginStep(s, p)
    ensures BudgetInv(r)
  {
    SumUpdate(One, s.callers, p, r.callers[p]);
    SumUpdate(Budget, s.callers, p, r.callers[p]);
    if Admits(s) {
      BudgetBound(s.callers);
    }
  }

  lemma {:induction false} BudgetBound(cs: seq<Caller>)
    ensures Sum(Budget, cs) <= Sum(One, cs) * MAXOPBLOCKS
  {
    if cs != [] {
      BudgetBound(cs[1..]);
    }
  }

  lemma CheckKeepsBudget(g: Geometry, s: State, p: nat, b: nat, data: Block, r: State)
    requires BudgetInv(s) && CanCheck(g, s, p, b, data)
    requires r == CheckStep(g, s, p, b, data)
    ensures BudgetInv(r)
  {
    SomeoneInside(s, p);
    SumUpdate(One, s.callers, p, r.callers[p]);
    SumUpdate(Budget, s.callers, p, r.callers[p]);
  }

  lemma LockedKeepsBudget(g: Geometry, s: State, p: nat, r: State)
    requires BudgetInv(s) && CanLock(s, p)
    requires r == LockedStep(s, p)
    ensures BudgetInv(r)
  {
    SomeoneInside(s, p);
    SumUpdate(One, s.callers, p, r.callers[p]);
    SumUpdate(Budget, s.callers, p, r.callers[p]);
    var c := s.callers[p];
    if c.pending.block in c.blocks {
      assert c.blocks + {c.pending.block} == c.blocks;
    }
    SumNonNegative(Budget, r.callers);
    forall q | 0 <= q < |r.callers| && r.callers[q].Inside?
      ensures forall b | b in r.callers[q].blocks :: b in r.lh
    {
      assert forall b | b in s.callers[q].blocks :: b in s.lh;
    }
  }

  lemma WakeKeepsSums(cs: seq<Caller>)
    ensures Sum(One, Wake(cs)) == Sum(One, cs)
    ensures Sum(Budget, Wake(cs)) == Sum(Budget, cs)
  {
    SumAgree(One, Wake(cs), cs);
    SumAgree(Budget, Wake(cs), cs);
  }

  lemma EndKeepsBudget(g: Geometry, s: State, p: nat, r: State)
    requires BudgetInv(s) && CanEnd(s, p)
    requires r == EndStep(s, p)
    ensures BudgetInv(r) && !r.phase.Panicked?
  {
    SomeoneInside(s, p);
    var t := s.callers[p := Outside];
    SumUpdate(One, s.callers, p, Outside);
    SumUpdate(Budget, s.callers, p, Outside);
    WakeKeepsSums(t);
  }

  /** Steps of the committer and of recovery leave the callers alone. */
  lemma CommitterKeepsBudget(s: State, r: State)
    requires BudgetInv(s) && s.outstanding == 0
    requires r.callers == s.callers && r.outstanding == 0 && |r.lh| <= LOGSIZE
    requires r.phase.Finishing? ==> r.lh == []
    requires r.committing == s.committing
    requires s.committing ==> r.phase.CopyingLog? || r.phase.Installing? || r.phase.Finishing?
    requires !s.committing ==> r.phase.Recovering? || (r.phase.Running? && r.lh == [])
    requires !s.committing ==> s.phase.Down? || s.phase.Recovering?
    ensures BudgetInv(r)
  {
    NoneInside(s);
    IdleBudget(s.callers);
  }

  lemma {:induction false} IdleBudget(cs: seq<Caller>)
    requires forall p | 0 <= p < |cs| :: !cs[p].Inside?
    ensures Sum(Budget, cs) == 0
  {
    if cs != [] {
      IdleBudget(cs[1..]);
    }
  }

  lemma FinishKeepsBudget(s: State, r: State)
    requires BudgetInv(s) && s.phase.Finishing?
    requires r == FinishStep(s)
    ensures BudgetInv(r)
  {
    NoneInside(s);
    IdleBudget(s.callers);
    WakeKeepsSums(s.callers);
  }

  lemma {:induction false} ZeroSum(f: Caller -> int, n: nat)
    requires f(Outside) == 0
    ensures Sum(f, seq(n, i => Outside)) == 0
  {
    if n > 0 {
      assert seq(n, i => Outside)[1..] == seq(n - 1, i => Outside);
      ZeroSum(f, n - 1);
    }
  }

  lemma CrashKeepsBudget(g: Geometry, s: State, r: State)
    requires r == CrashStep(s)
    ensures BudgetInv(r)
  {
    ZeroSum(One, |s.callers|);
    ZeroSum(Budget, |s.callers|);
  }

  // ---- blocks ----

  lemma StepKeepsBlocks(g: Geometry, s: State, e: Event, r: State)
    requires BlocksInv(g, s) && Enabled(g, s, e)
    requires r == Next(g, s, e)
    ensures BlocksInv(g, r)
  {
    if e.Locked? {
      LockedKeepsBlocks(g, s, e.p, r);
    }
  }

  lemma LockedKeepsBlocks(g: Geometry, s: State, p: nat, r: State)
    requires BlocksInv(g, s) && CanLock(s, p) && r == LockedStep(s, p)
    ensures BlocksInv(g, r)
  {
    if s.callers[p].pending.block !in s.lh {
      OnceSnoc(s.lh, s.callers[p].pending.block);
    }
  }

  // ---- operations ----

  lemma FreshOp(s: State, n: nat)
    requires OpsInv(s) && n == |s.ops|
    ensures Of(s.current, n) == []
    ensures forall h | 0 <= h < |s.committed| :: Of(s.committed[h], n) == []
  {
    OfFresh(s.current, n);
    forall h | 0 <= h < |s.committed|
      ensures Of(s.committed[h], n) == []
    {
      OfFresh(s.committed[h], n);
    }
  }

  lemma BeginKeepsOps(g: Geometry, s: State, p: nat, r: State)
    requires OpsInv(s) && CanBegin(s, p)
    requires r == BeginStep(s, p)
    ensures OpsInv(r)
  {
    if Admits(s) {
      FreshOp(s, |s.ops|);
      assert r.ops == s.ops + [Op(p, false, In(|s.committed|), [])];
      forall o | 0 <= o < |r.ops|
        ensures OpAtomic(r, o)
      {
        if o < |s.ops| {
          assert OpAtomic(s, o);
        }
      }
    } else {
      SameHistoryKeepsOps(s, r);
    }
  }

  lemma LockedKeepsOps(g: Geometry, s: State, p: nat, r: State)
    requires OpsInv(s) && CanLock(s, p)
    requires r == LockedStep(s, p)
    ensures OpsInv(r)
  {
    var c := s.callers[p];
    var w := Write(c.op, c.pending.block, c.pending.data);
    forall o | 0 <= o < |r.ops|
      ensures Of(r.current, o) == if o == c.op then Of(s.current, o) + [w] else Of(s.current, o)
      ensures OpAtomic(r, o)
    {
      OfSnoc(s.current, w, o);
      assert OpAtomic(s, o);
    }
  }

  lemma SameHistoryKeepsOps(s: State, r: State)
    requires OpsInv(s)
    requires r.ops == s.ops && r.committed == s.committed && r.current == s.current
    requires |r.callers| == |s.callers|
    requires forall p | 0 <= p < |s.callers| ::
      (r.callers[p].Inside? <==> s.callers[p].Inside?)
      && (s.callers[p].Inside? ==> r.callers[p].op == s.callers[p].op)
    requires s.phase.Panicked? ==> r.phase.Panicked?
    ensures OpsInv(r)
  {
    assert forall o | 0 <= o < |r.ops| :: OpAtomic(s, o) ==> OpAtomic(r, o);
  }

  lemma EndKeepsOps(g: Geometry, s: State, p: nat, r: State)
    requires OpsInv(s) && BudgetInv(s) && CanEnd(s, p)
    requires r == EndStep(s, p)
    ensures OpsInv(r)
  {
    SomeoneInside(s, p);
    var o := s.callers[p].op;
    var t := s.(callers := s.callers[p := Outside], ops := s.ops[o := s.ops[o].(finished := true)]);
    FinishOpKeepsOps(s, t, p);
    SameHistoryKeepsOps(t, r);
  }

  lemma FinishOpKeepsOps(s: State, t: State, p: nat)
    requires OpsInv(s) && p < |s.callers| && s.callers[p].Inside? && s.callers[p].op < |s.ops|
    requires var o := s.callers[p].op;
             t == s.(callers := s.callers[p := Outside], ops := s.ops[o := s.ops[o].(finished := true)])
    ensures OpsInv(t)
  {
    forall o | 0 <= o < |t.ops|
      ensures OpAtomic(t, o)
    {
      assert OpAtomic(s, o);
    }
  }

  lemma CommitKeepsOps(s: State, r: State)
    requires OpsInv(s) && BudgetInv(s) && s.committing
    requires r.ops == s.ops && r.callers == s.callers
    requires r.committed == s.committed + [s.current] && r.current == []
    ensures OpsInv(r)
  {
    NoneInside(s);
    forall o | 0 <= o < |r.ops|
      ensures OpAtomic(r, o)
    {
      assert OpAtomic(s, o);
    }
  }

  lemma CrashKeepsOps(g: Geometry, s: State, r: State)
    requires OpsInv(s)
    requires r == CrashStep(s)
    ensures OpsInv(r)
  {
    forall o | 0 <= o < |r.ops|
      ensures OpAtomic(r, o)
    {
      assert OpAtomic(s, o);
    }
  }

  // ---- the disk ----

  lemma LockedKeepsDisk(g: Geometry, base: Disk, s: State, p: nat, r: State)
    requires DiskInv(g, base, s) && BudgetInv(s) && BlocksInv(g, s) && CanLock(s, p)
    requires r == LockedStep(s, p) && |r.lh| < g.size
    ensures DiskInv(g, base, r)
  {
    SomeoneInside(s, p);
    var c := s.callers[p];
    var w := Write(c.op, c.pending.block, c.pending.data);
    AppendKeepsPinned(s.pinned, s.lh, w);
    AppendKeepsLogical(g, base, s.disk, s.pinned, s.current, w);
  }

  lemma AppendKeepsPinned(pinned: Cache, lh: seq<nat>, w: Write)
    requires PinnedInv(pinned, lh, 0)
    ensures PinnedInv(pinned[w.block := w.data], Absorb(lh, w.block), 0)
  {
    var r := Absorb(lh, w.block);
    forall b | b in pinned[w.block := w.data]
      ensures InTail(r, 0, b)
    {
      if b == w.block && b !in lh {
        assert r[|lh|] == b;
      } else if b in pinned {
        var i :| 0 <= i < |lh| && lh[i] == b;
        assert r[i] == b;
      }
    }
  }

  lemma AppendKeepsLogical(g: Geometry, base: Disk, d: Disk, pinned: Cache, current: seq<Write>, w: Write)
    requires LogicalInv(g, base, d, pinned, current) && Home(g, w.block)
    ensures LogicalInv(g, base, d, pinned[w.block := w.data], current + [w])
  {
    ApplyWritesSnoc(base, current, w);
  }

  lemma CopyKeepsDisk(g: Geometry, base: Disk, s: State, r: State)
    requires DiskInv(g, base, s) && CanCopy(g, s)
    requires r == CopyStep(g, s)
    ensures DiskInv(g, base, r)
  {
    CopyOne(g, base, s.disk, s.pinned, s.lh, s.current, s.phase.tail);
  }

  lemma CopyOne(g: Geometry, base: Disk, d: Disk, pinned: Cache, lh: seq<nat>, current: seq<Write>, t: nat)
    requires Recoverable(g, d, base) && Header(g, d) == [] && |lh| < g.size && t < |lh|
    requires PinnedInv(pinned, lh, 0) && LogicalInv(g, base, d, pinned, current) && CopiedInv(g, d, pinned, lh, t)
    ensures var r := d[g.start + 1 + t := pinned[lh[t]]];
            && Recoverable(g, r, base) && Header(g, r) == []
            && LogicalInv(g, base, r, pinned, current) && CopiedInv(g, r, pinned, lh, t + 1)
  {
    var r := d[g.start + 1 + t := pinned[lh[t]]];
    EmptyHeadKeeps(g, d, r, base);
  }

  lemma EmptyHeadKeeps(g: Geometry, d: Disk, r: Disk, base: Disk)
    requires Recoverable(g, d, base) && Header(g, d) == []
    requires DiskOk(g, r) && r[g.start] == d[g.start] && SameHome(g, r, d)
    ensures Recoverable(g, r, base) && Header(g, r) == []
  {
  }

  lemma CommitNothingKeepsDisk(g: Geometry, init: Disk, s: State, r: State)
    requires DiskInv(g, ApplyGroups(init, s.committed), s) && s.phase == CopyingLog(0) && s.lh == []
    requires r == CommitNothingStep(s)
    ensures DiskInv(g, ApplyGroups(init, r.committed), r)
  {
    ApplyGroupsSnoc(init, s.committed, s.current);
    assert r.pinned.Keys == {};
  }

  lemma CommitHeadKeepsDisk(g: Geometry, init: Disk, s: State, r: State)
    requires DiskInv(g, ApplyGroups(init, s.committed), s) && CanCommitHead(g, s)
    requires r == CommitHeadStep(g, s)
    ensures DiskInv(g, ApplyGroups(init, r.committed), r)
  {
    ApplyGroupsSnoc(init, s.committed, s.current);
    var base := ApplyGroups(init, s.committed + [s.current]);
    CopiedIsNew(g, base, s.disk, s.pinned, s.lh);
    LogHolds(g, s.disk, s.lh, base);
  }

  /** Before the header write: the log copies are the new contents, and the home
      blocks that are not logged are unchanged by the group. */
  lemma CopiedIsNew(g: Geometry, base: Disk, d: Disk, pinned: Cache, lh: seq<nat>)
    requires |d| == |base| == g.blocks && HeaderOk(g, lh)
    requires forall b {:trigger Home(g, b)} | Home(g, b) :: Logical(d, pinned, b) == base[b]
    requires PinnedInv(pinned, lh, 0) && CopiedInv(g, d, pinned, lh, |lh|)
    ensures forall i | 0 <= i < |lh| :: d[g.start + 1 + i] == base[lh[i]]
    ensures forall b {:trigger Home(g, b)} | Home(g, b) && b !in lh :: d[b] == base[b]
    ensures ToInstallInv(g, base, pinned, lh, 0)
  {
    forall i | 0 <= i < |lh|
      ensures pinned[lh[i]] == base[lh[i]]
    {
      assert Home(g, lh[i]);
    }
  }

  /** Copying one logged block home again, from any disk that recovers. */
  lemma InstallOne(g: Geometry, base: Disk, d: Disk, lh: seq<nat>, t: nat)
    requires InstalledInv(g, base, d, lh, t) && t < |lh|
    ensures InstalledInv(g, base, d[lh[t] := d[g.start + 1 + t]], lh, t + 1)
  {
    assert Home(g, lh[t]);
    forall i | 0 <= i < t
      ensures lh[i] != lh[t]
    {
      OnceAt(lh, i, t);
    }
  }

  lemma UnpinOne(g: Geometry, base: Disk, pinned: Cache, lh: seq<nat>, t: nat)
    requires t < |lh| && ToInstallInv(g, base, pinned, lh, t) && Once(lh)
    ensures ToInstallInv(g, base, pinned - {lh[t]}, lh, t + 1)
  {
    forall b | b in pinned && b != lh[t]
      ensures InTail(lh, t + 1, b)
    {
      var i :| t <= i < |lh| && lh[i] == b;
      assert i > t;
    }
    forall i | t < i < |lh|
      ensures lh[i] != lh[t]
    {
      OnceAt(lh, i, t);
    }
  }

  lemma InstallKeepsDisk(g: Geometry, base: Disk, s: State, r: State)
    requires DiskInv(g, base, s) && CanInstall(g, s)
    requires r == InstallStep(g, s)
    ensures DiskInv(g, base, r)
  {
    var t := s.phase.tail;
    assert r.disk == s.disk[s.lh[t] := s.disk[g.start + 1 + t]];
    assert r.pinned == s.pinned - {s.lh[t]};
    InstallOne(g, base, s.disk, s.lh, t);
    UnpinOne(g, base, s.pinned, s.lh, t);
  }

  lemma AllInstalled(g: Geometry, base: Disk, d: Disk, lh: seq<nat>)
    requires InstalledInv(g, base, d, lh, |lh|)
    ensures Recoverable(g, WriteHead(g, d, []), base)
    ensures SameHome(g, WriteHead(g, d, []), base)
  {
  }

  lemma EraseKeepsDisk(g: Geometry, base: Disk, s: State, r: State)
    requires DiskInv(g, base, s) && s.phase == Installing(|s.lh|)
    requires r == EraseStep(g, s)
    ensures DiskInv(g, base, r)
  {
    AllInstalled(g, base, s.disk, s.lh);
    assert s.pinned.Keys == {};
  }

  lemma FinishKeepsDisk(g: Geometry, base: Disk, s: State, r: State)
    requires DiskInv(g, base, s) && s.phase.Finishing? && s.lh == []
    requires r == FinishStep(s)
    ensures DiskInv(g, base, r)
  {
    assert ApplyWrites(base, []) == base;
  }

  lemma CrashKeepsDisk(g: Geometry, base: Disk, s: State, r: State)
    requires DiskInv(g, base, s)
    requires r == CrashStep(s)
    ensures DiskInv(g, base, r)
  {
  }

  lemma ReadHeadKeepsDisk(g: Geometry, base: Disk, s: State, r: State)
    requires DiskInv(g, base, s) && s.phase.Down?
    requires r == ReadHeadStep(g, s)
    ensures DiskInv(g, base, r)
  {
  }

  lemma RecoverKeepsDisk(g: Geometry, base: Disk, s: State, r: State)
    requires DiskInv(g, base, s) && CanRecover(g, s)
    requires r == RecoverStep(g, s)
    ensures DiskInv(g, base, r)
  {
    var t := s.phase.tail;
    assert r.disk == s.disk[s.lh[t] := s.disk[g.start + 1 + t]];
    InstallOne(g, base, s.disk, s.lh, t);
  }

  lemma RecoverEraseKeepsDisk(g: Geometry, base: Disk, s: State, r: State)
    requires DiskInv(g, base, s) && s.phase == Recovering(|s.lh|)
    requires r == RecoverEraseStep(g, s)
    ensures DiskInv(g, base, r)
  {
    AllInstalled(g, base, s.disk, s.lh);
    assert ApplyWrites(base, []) == base;
  }

  lemma EndKeepsDisk(g: Geometry, base: Disk, s: State, p: nat, r: State)
    requires DiskInv(g, base, s) && BudgetInv(s) && CanEnd(s, p)
    requires r == EndStep(s, p)
    ensures DiskInv(g, base, r)
  {
    SomeoneInside(s, p);
  }

  /** begin_op, and the unlocked test of log_write, touch neither disk nor log. */
  lemma SameDiskKeeps(g: Geometry, base: Disk, s: State, r: State)
    requires DiskInv(g, base, s)
    requires r.disk == s.disk && r.pinned == s.pinned && r.lh == s.lh && r.current == s.current
    requires r.phase == s.phase || r.phase.Panicked?
    ensures DiskInv(g, base, r)
  {
  }

  // ---- one step, then every run ----

  lemma StepKeepsBudget(g: Geometry, s: State, e: Event, r: State)
    requires BudgetInv(s) && Enabled(g, s, e)
    requires r == Next(g, s, e)
    ensures BudgetInv(r)
  {
    match e
    case Begin(p) => BeginKeepsBudget(g, s, p, r);
    case Check(p, b, data) => CheckKeepsBudget(g, s, p, b, data, r);
    case Locked(p) => LockedKeepsBudget(g, s, p, r);
    case End(p) => EndKeepsBudget(g, s, p, r);
    case Crash => CrashKeepsBudget(g, s, r);
    case Finish => FinishKeepsBudget(s, r);
    case _ => CommitterKeepsBudget(s, r);
  }

  lemma StepKeepsOps(g: Geometry, s: State, e: Event, r: State)
    requires OpsInv(s) && BudgetInv(s) && Enabled(g, s, e)
    requires r == Next(g, s, e)
    ensures OpsInv(r)
  {
    match e
    case Begin(p) => BeginKeepsOps(g, s, p, r);
    case Locked(p) => LockedKeepsOps(g, s, p, r);
    case End(p) => EndKeepsOps(g, s, p, r);
    case Crash => CrashKeepsOps(g, s, r);
    case CommitNothing => CommitKeepsOps(s, r);
    case CommitHead => CommitKeepsOps(s, r);
    case _ => OtherKeepsOps(g, s, e, r);
  }

  /** Steps that neither begin, end, write for nor commit an operation. */
  lemma OtherKeepsOps(g: Geometry, s: State, e: Event, r: State)
    requires OpsInv(s) && Enabled(g, s, e) && r == Next(g, s, e)
    requires !e.Begin? && !e.Locked? && !e.End? && !e.Crash? && !e.CommitNothing? && !e.CommitHead?
    ensures OpsInv(r)
  {
    SameHistoryKeepsOps(s, r);
  }

  lemma StepKeepsDisk(g: Geometry, init: Disk, s: State, e: Event, r: State)
    requires DiskInv(g, ApplyGroups(init, s.committed), s) && BudgetInv(s) && BlocksInv(g, s) && Enabled(g, s, e)
    requires r == Next(g, s, e) && |r.lh| < g.size
    ensures DiskInv(g, ApplyGroups(init, r.committed), r)
  {
    if e.CommitNothing? {
      CommitNothingKeepsDisk(g, init, s, r);
    } else if e.CommitHead? {
      CommitHeadKeepsDisk(g, init, s, r);
    } else {
      OtherKeepsDisk(g, ApplyGroups(init, s.committed), s, e, r);
    }
  }

  /** Steps that commit nothing. */
  lemma OtherKeepsDisk(g: Geometry, base: Disk, s: State, e: Event, r: State)
    requires DiskInv(g, base, s) && BudgetInv(s) && BlocksInv(g, s) && Enabled(g, s, e)
    requires r == Next(g, s, e) && |r.lh| < g.size && !e.CommitNothing? && !e.CommitHead?
    ensures DiskInv(g, base, r) && r.committed == s.committed
  {
    match e
    case Begin(p) => SameDiskKeeps(g, base, s, r);
    case Check(p, b, data) => SameDiskKeeps(g, base, s, r);
    case Locked(p) => LockedKeepsDisk(g, base, s, p, r);
    case End(p) => EndKeepsDisk(g, base, s, p, r);
    case CopyBlock => CopyKeepsDisk(g, base, s, r);
    case InstallBlock => InstallKeepsDisk(g, base, s, r);
    case EraseHead => EraseKeepsDisk(g, base, s, r);
    case Finish => FinishKeepsDisk(g, base, s, r);
    case Crash => CrashKeepsDisk(g, base, s, r);
    case ReadHead => ReadHeadKeepsDisk(g, base, s, r);
    case RecoverBlock => RecoverKeepsDisk(g, base, s, r);
    case RecoverErase => RecoverEraseKeepsDisk(g, base, s, r);
  }

  /** Any step of any process, of the committer, of recovery, or a crash, as long as
      the log still fits its area. */
  lemma StepKeepsInv(g: Geometry, init: Disk, s: State, e: Event, r: State)
    requires Inv(g, init, s) && Enabled(g, s, e)
    requires r == Next(g, s, e) && |r.lh| < g.size
    ensures Inv(g, init, r)
    ensures s.committed <= r.committed
  {
    StepKeepsBudget(g, s, e, r);
    StepKeepsBlocks(g, s, e, r);
    StepKeepsOps(g, s, e, r);
    StepKeepsDisk(g, init, s, e, r);
  }

  lemma {:induction false} RunKeepsBudget(g: Geometry, s: State, es: seq<Event>)
    requires BudgetInv(s)
    ensures Exec(g, s, es).Some? ==> BudgetInv(Exec(g, s, es).value)
    decreases |es|
  {
    if es != [] && Enabled(g, s, es[0]) {
      var r := Next(g, s, es[0]);
      StepKeepsBudget(g, s, es[0], r);
      RunKeepsBudget(g, r, es[1..]);
    }
  }

  lemma BootBudget(d: Disk, n: nat)
    ensures BudgetInv(Boot(d, n))
  {
    ZeroSum(One, n);
    ZeroSum(Budget, n);
  }

  lemma BootInv(g: Geometry, d: Disk, n: nat)
    requires HeadOk(g, d)
    ensures Inv(g, Recovered(g, d), Boot(d, n))
  {
    BootBudget(d, n);
    SelfRecoverable(g, d);
  }

  lemma {:induction false} RunKeepsInv(g: Geometry, init: Disk, s: State, es: seq<Event>)
    requires Inv(g, init, s) && Fits(g, s, es)
    ensures Exec(g, s, es).Some? ==> Inv(g, init, Exec(g, s, es).value)
    ensures Exec(g, s, es).Some? ==> s.committed <= Exec(g, s, es).value.committed
    decreases |es|
  {
    if es != [] && Enabled(g, s, es[0]) {
      var r := Next(g, s, es[0]);
      StepKeepsInv(g, init, s, es[0], r);
      RunKeepsInv(g, init, r, es[1..]);
    }
  }

  /** What a crash now would leave: recovery gives the home blocks of `init` with
      exactly the groups committed so far, and each operation is wholly in one group
      or in none. */
  ghost predicate Safe(g: Geometry, init: Disk, s: State) {
    && HeadOk(g, s.disk)
    && SameHome(g, Recovered(g, s.disk), ApplyGroups(init, s.committed))
    && forall o | 0 <= o < |s.ops| :: OpAtomic(s, o)
  }

  /** Crash safety, for a log of any size, from any disk, with any number of callers
      and any number of crashes during operation, commit and recovery: over every run
      in which the log fits its area. LogReservation says which logs always do. */
  lemma CrashSafe(g: Geometry, d: Disk, n: nat, es: seq<Event>)
    requires HeadOk(g, d) && Fits(g, Boot(d, n), es)
    requires Exec(g, Boot(d, n), es).Some?
    ensures Safe(g, Recovered(g, d), Exec(g, Boot(d, n), es).value)
  {
    BootInv(g, d, n);
    RunKeepsInv(g, Recovered(g, d), Boot(d, n), es);
    var s := Exec(g, Boot(d, n), es).value;
    RecoveredHome(g, s.disk, ApplyGroups(Recovered(g, d), s.committed));
  }

  // ---- durability ----

  /** No operation is active and no commit has its header still to write. */
  predicate Quiet(s: State) {
    || s.phase.Installing? || s.phase.Finishing? || s.phase.Down? || s.phase.Recovering?
    || (s.phase.Running? && s.outstanding == 0)
  }

  /** Then every operation is committed or lost. */
  ghost predicate SettledInv(s: State) {
    Quiet(s) ==>
      && s.current == []
      && forall o {:trigger s.ops[o]} | 0 <= o < |s.ops| && s.ops[o].fate.In? :: s.ops[o].fate.group < |s.committed|
  }

  lemma CommitSettles(s: State, r: State)
    requires OpsInv(s) && r.ops == s.ops && r.current == [] && |r.committed| == |s.committed| + 1
    ensures SettledInv(r)
  {
  }

  lemma CrashSettles(s: State, r: State)
    requires OpsInv(s) && r == CrashStep(s)
    ensures SettledInv(r)
  {
    forall o {:trigger r.ops[o]} | 0 <= o < |r.ops| && r.ops[o].fate.In?
      ensures r.ops[o].fate.group < |r.committed|
    {
      assert s.ops[o].fate.group <= |s.committed|;
    }
  }

  lemma StepSettles(g: Geometry, s: State, e: Event, r: State)
    requires BudgetInv(s) && OpsInv(s) && SettledInv(s) && Enabled(g, s, e)
    requires r == Next(g, s, e)
    ensures SettledInv(r)
  {
    match e
    case Locked(p) => SomeoneInside(s, p);
    case End(p) => SomeoneInside(s, p);
    case CommitNothing => CommitSettles(s, r);
    case CommitHead => CommitSettles(s, r);
    case Crash => CrashSettles(s, r);
    case _ => OtherSettles(g, s, e, r);
  }

  lemma OtherSettles(g: Geometry, s: State, e: Event, r: State)
    requires BudgetInv(s) && SettledInv(s) && Enabled(g, s, e) && r == Next(g, s, e)
    requires !e.Locked? && !e.End? && !e.CommitNothing? && !e.CommitHead? && !e.Crash?
    ensures SettledInv(r)
  {
  }

  lemma {:induction false} RunSettles(g: Geometry, s: State, es: seq<Event>)
    requires BudgetInv(s) && OpsInv(s) && SettledInv(s)
    ensures Exec(g, s, es).Some? ==> SettledInv(Exec(g, s, es).value) && OpsInv(Exec(g, s, es).value)
    decreases |es|
  {
    if es != [] && Enabled(g, s, es[0]) {
      var r := Next(g, s, es[0]);
      StepKeepsBudget(g, s, es[0], r);
      StepKeepsOps(g, s, es[0], r);
      StepSettles(g, s, es[0], r);
      RunSettles(g, r, es[1..]);
    }
  }

  /** Durability over every run, for a log of any size: whenever no operation is active,
      or a commit's header is written, every operation that no crash has cut off is in a
      committed group, with all its writes, and so in what recovery would give. */
  lemma Durability(g: Geometry, d: Disk, n: nat, es: seq<Event>, o: nat)
    requires Exec(g, Boot(d, n), es).Some?
    requires Quiet(Exec(g, Boot(d, n), es).value) && o < |Exec(g, Boot(d, n), es).value.ops|
    ensures var s := Exec(g, Boot(d, n), es).value;
            s.ops[o].fate.In? ==>
              && s.ops[o].finished && s.ops[o].fate.group < |s.committed|
              && Of(s.committed[s.ops[o].fate.group], o) == s.ops[o].writes
  {
    BootBudget(d, n);
    RunSettles(g, Boot(d, n), es);
    assert OpAtomic(Exec(g, Boot(d, n), es).value, o);
  }

  /** Operations between commits see every earlier write: the cache over the disk is
      the committed groups followed by the writes of the group being built. */
  lemma ReadsLatest(g: Geometry, d: Disk, n: nat, es: seq<Event>, b: nat)
    requires HeadOk(g, d) && Fits(g, Boot(d, n), es) && Home(g, b)
    requires Exec(g, Boot(d, n), es).Some? && Exec(g, Boot(d, n), es).value.phase.Running?
    ensures var s := Exec(g, Boot(d, n), es).value;
            |s.disk| == g.blocks &&
            Logical(s.disk, s.pinned, b) == ApplyWrites(ApplyGroups(Recovered(g, d), s.committed), s.current)[b]
  {
    BootInv(g, d, n);
    RunKeepsInv(g, Recovered(g, d), Boot(d, n), es);
  }

  /** While a commit is in progress nobody is inside an operation, so no log_write can
      happen; and a caller asleep in begin_op is one that could not proceed. */
  lemma CommitExcludesWriters(g: Geometry, d: Disk, n: nat, es: seq<Event>, p: nat)
    requires Exec(g, Boot(d, n), es).Some?
    ensures var s := Exec(g, Boot(d, n), es).value;
            p < |s.callers| ==>
              && (s.committing ==> !s.callers[p].Inside?)
              && (Up(s) && s.callers[p].Waiting? ==> !Admits(s) && (s.committing || s.outstanding > 0))
  {
    BootBudget(d, n);
    RunKeepsBudget(g, Boot(d, n), es);
    var s := Exec(g, Boot(d, n), es).value;
    if s.outstanding == 0 {
      NoneInside(s);
    }
  }

  /** The committer, once started, and recovery, once started, can always take their
      next step: none of the conditions a disk write depends on fails. */
  lemma CommitterNeverStuck(g: Geometry, init: Disk, s: State)
    requires Inv(g, init, s)
    requires s.phase.CopyingLog? || s.phase.Installing? || s.phase.Finishing? || s.phase.Down? || s.phase.Recovering?
    ensures exists e: Event :: e != Crash && Enabled(g, s, e)
  {
    var e := match s.phase
      case CopyingLog(t) => if t < |s.lh| then CopyBlock else if s.lh == [] then CommitNothing else CommitHead
      case Installing(t) => if t < |s.lh| then InstallBlock else EraseHead
      case Finishing => Finish
      case Down => ReadHead
      case Recovering(t) => if t < |s.lh| then RecoverBlock else RecoverErase
      case _ => Crash;
    assert Enabled(g, s, e);
  }
}
