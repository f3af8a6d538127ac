/** Space in the log: what begin_op's reservation guarantees, and the exact sizes of
    the on-disk log for which log_write's unlocked size test is enough. */
module LogReservation {
  import opened Basics
  import opened Words
  import opened LogFormat
  import opened LogMachine
  import opened LogProofs

  // ---- the reservation ----

  lemma ReachableBudget(g: Geometry, d: Disk, n: nat, es: seq<Event>)
    requires Exec(g, Boot(d, n), es).Some?
    ensures BudgetInv(Exec(g, Boot(d, n), es).value)
  {
    BootBudget(d, n);
    RunKeepsBudget(g, Boot(d, n), es);
  }

  /** In every run, whatever the size of the log area, the blocks logged plus what the
      active operations may still add are at most LOGSIZE. */
  lemma ReservationHolds(g: Geometry, d: Disk, n: nat, es: seq<Event>)
    requires Exec(g, Boot(d, n), es).Some?
    ensures var s := Exec(g, Boot(d, n), es).value;
            Up(s) ==> |s.lh| + Sum(Budget, s.callers) <= LOGSIZE
  {
    ReachableBudget(g, d, n, es);
  }

  /** log_write panics exactly when as many blocks are logged as the header or the
      area has room for. The header alone never runs out for a block new to its
      operation; NewBlockPanicsExactly says when the area does. */
  lemma PanicExactly(g: Geometry, d: Disk, n: nat, es: seq<Event>, p: nat, b: nat, data: Block)
    requires Exec(g, Boot(d, n), es).Some?
    requires CanCheck(g, Exec(g, Boot(d, n), es).value, p, b, data)
    ensures var s := Exec(g, Boot(d, n), es).value;
            && (CheckPanics(g, s) <==> |s.lh| == LOGSIZE || |s.lh| >= g.size - 1)
            && (b !in s.callers[p].blocks || b !in s.lh ==> |s.lh| < LOGSIZE)
  {
    ReachableBudget(g, d, n, es);
    var s := Exec(g, Boot(d, n), es).value;
    SomeoneInside(s, p);
    SumAtLeast(Budget, s.callers, p);
    if b !in s.callers[p].blocks {
      assert Budget(s.callers[p]) >= 1;
    }
  }

  // ---- logs that always fit ----

  lemma {:induction false} BigLogFits(g: Geometry, s: State, es: seq<Event>)
    requires g.size > LOGSIZE && BudgetInv(s)
    ensures Fits(g, s, es)
    decreases |es|
  {
    if es != [] && Enabled(g, s, es[0]) {
      StepKeepsBudget(g, s, es[0], Next(g, s, es[0]));
      BigLogFits(g, Next(g, s, es[0]), es[1..]);
    }
  }

  /** A one-block log has no room for copies and log_write always panics. */
  ghost predicate Refusing(s: State) {
    && s.lh == []
    && forall p | 0 <= p < |s.callers| && s.callers[p].Inside? :: s.callers[p].pending.NoWrite?
  }

  lemma {:induction false} OneBlockLogFits(g: Geometry, s: State, es: seq<Event>)
    requires g.size == 1 && Refusing(s)
    ensures Fits(g, s, es)
    decreases |es|
  {
    if es != [] && Enabled(g, s, es[0]) {
      var r := Next(g, s, es[0]);
      assert Refusing(r);
      OneBlockLogFits(g, r, es[1..]);
    }
  }

  ghost predicate Passed(s: State, p: int) {
    0 <= p < |s.callers| && s.callers[p].Inside? && s.callers[p].pending.Checked?
  }

  /** In no state of the run have two callers passed log_write's size test without
      having appended yet. */
  ghost predicate Unraced(g: Geometry, s: State, es: seq<Event>)
    decreases |es|
  {
    && (forall p, q | Passed(s, p) && Passed(s, q) :: p == q)
    && (es != [] && Enabled(g, s, es[0]) ==> Unraced(g, Next(g, s, es[0]), es[1..]))
  }

  ghost predicate Spare(g: Geometry, s: State) {
    && |s.lh| < g.size
    && (forall p | Passed(s, p) :: |s.lh| < g.size - 1 && !s.phase.Down?)
  }

  /** A log of any size, LOGSIZE included, fits its area as long as no two calls of
      log_write overlap between its size test and its lock. */
  lemma {:induction false} UnracedLogFits(g: Geometry, s: State, es: seq<Event>)
    requires Spare(g, s) && Unraced(g, s, es)
    ensures Fits(g, s, es)
    decreases |es|
  {
    if es != [] && Enabled(g, s, es[0]) {
      var r := Next(g, s, es[0]);
      SpareStep(g, s, es[0], r);
      UnracedLogFits(g, r, es[1..]);
    }
  }

  lemma SpareStep(g: Geometry, s: State, e: Event, r: State)
    requires Spare(g, s) && Enabled(g, s, e) && r == Next(g, s, e)
    requires forall p, q | Passed(s, p) && Passed(s, q) :: p == q
    ensures Spare(g, r)
  {
    forall p | Passed(r, p)
      ensures |r.lh| < g.size - 1 && !r.phase.Down?
    {
      if !(e.Check? && e.p == p) {
        assert Passed(s, p);
        assert !(e.Locked? && e.p == p);
        if e.Locked? {
          assert Passed(s, e.p);
        }
      }
    }
    if e.Locked? {
      assert Passed(s, e.p);
    }
  }

  /** Crash safety of runs without that overlap, for every size of the log area. */
  lemma UnracedCrashSafe(g: Geometry, d: Disk, n: nat, es: seq<Event>)
    requires HeadOk(g, d) && Unraced(g, Boot(d, n), es) && Exec(g, Boot(d, n), es).Some?
    ensures Safe(g, Recovered(g, d), Exec(g, Boot(d, n), es).value)
  {
    UnracedLogFits(g, Boot(d, n), es);
    CrashSafe(g, d, n, es);
  }

  // ---- building runs ----

  ghost predicate Reach(g: Geometry, s: State, r: State) {
    exists es: seq<Event> :: Exec(g, s, es) == Some(r)
  }

  lemma ReachStep(g: Geometry, s: State, r: State, e: Event, q: State)
    requires Reach(g, s, r) && Enabled(g, r, e) && q == Next(g, r, e)
    ensures Reach(g, s, q)
  {
    var es: seq<Event> :| Exec(g, s, es) == Some(r);
    ExecSnoc(g, s, es, e);
  }

  /** Home blocks for the runs below to log: those just after the log area. */
  function Target(g: Geometry, i: nat): nat { g.start + g.size + i }

  function Targets(g: Geometry, k: nat): (r: seq<nat>)
    ensures |r| == k
  {
    seq(k, i requires 0 <= i => Target(g, i))
  }

  ghost predicate Roomy(g: Geometry, d: Disk, n: nat) {
    && HeadOk(g, d) && Header(g, d) == [] && n >= 3
    && g.start + g.size + LOGSIZE <= g.blocks
  }

  /** Nothing has been written to disk x nor committed yet, and every block logged is
      pinned. */
  ghost predicate Clean(x: Disk, s: State) {
    && s.disk == x && s.committed == []
    && forall i | 0 <= i < |s.lh| :: s.lh[i] in s.pinned
  }

  ghost predicate Free(c: Caller, s: State, used: nat, k: nat, g: Geometry) {
    && c.Inside? && c.pending.NoWrite? && c.op < |s.ops| && |c.blocks| == used
    && forall b | b in c.blocks :: b in Targets(g, k)
  }

  function Total(u: seq<nat>): nat
    requires |u| == 3
  {
    u[0] + u[1] + u[2]
  }

  /** Three operations have logged u[0], u[1] and u[2] blocks, all different. */
  ghost predicate Filling(g: Geometry, s: State, u: seq<nat>) {
    && |u| == 3 && s.phase.Running? && !s.committing && |s.callers| >= 3 && s.outstanding == 3
    && s.lh == Targets(g, Total(u))
    && forall i | 0 <= i < 3 :: u[i] <= MAXOPBLOCKS && Free(s.callers[i], s, u[i], Total(u), g)
  }

  ghost predicate Started(s: State, k: nat, n: nat) {
    && s.phase.Running? && !s.committing && s.lh == [] && |s.callers| == n >= 3 && s.outstanding == k <= 3
    && (forall i | 0 <= i < k :: s.callers[i].Inside? && s.callers[i].pending.NoWrite?
                                 && s.callers[i].op < |s.ops| && s.callers[i].blocks == {})
    && (forall i | k <= i < n :: s.callers[i].Outside?)
  }

  lemma Recover(g: Geometry, d: Disk, n: nat) returns (s: State)
    requires Roomy(g, d, n)
    ensures Reach(g, Boot(d, n), s) && Started(s, 0, n) && Clean(Recovered(g, d), s)
  {
    var s0 := Boot(d, n);
    assert Exec(g, s0, []) == Some(s0);
    var s1 := Next(g, s0, ReadHead);
    ReachStep(g, s0, s0, ReadHead, s1);
    s := Next(g, s1, RecoverErase);
    ReachStep(g, s0, s1, RecoverErase, s);
  }

  lemma BeginOne(g: Geometry, x: Disk, s0: State, s: State, k: nat, n: nat) returns (r: State)
    requires Reach(g, s0, s) && Started(s, k, n) && k < 3 && Clean(x, s)
    ensures Reach(g, s0, r) && Started(r, k + 1, n) && Clean(x, r)
  {
    r := Next(g, s, Begin(k));
    ReachStep(g, s0, s, Begin(k), r);
  }

  lemma StartThree(g: Geometry, d: Disk, n: nat) returns (s: State)
    requires Roomy(g, d, n)
    ensures Reach(g, Boot(d, n), s) && Filling(g, s, [0, 0, 0]) && Clean(Recovered(g, d), s)
  {
    s := Recover(g, d, n);
    s := BeginOne(g, Recovered(g, d), Boot(d, n), s, 0, n);
    s := BeginOne(g, Recovered(g, d), Boot(d, n), s, 1, n);
    s := BeginOne(g, Recovered(g, d), Boot(d, n), s, 2, n);
    assert s.lh == Targets(g, 0);
  }

  lemma TargetFresh(g: Geometry, k: nat)
    requires g.start + g.size + LOGSIZE <= g.blocks && k < LOGSIZE
    ensures Home(g, Target(g, k)) && Target(g, k) !in Targets(g, k)
    ensures Targets(g, k + 1) == Targets(g, k) + [Target(g, k)]
  {
  }

  /** One more block for caller p, passing the size test and then taking the lock. */
  lemma LogOne(g: Geometry, x: Disk, s0: State, s: State, p: nat, k: nat) returns (r: State)
    requires Reach(g, s0, s) && Clean(x, s) && g.start + g.size + LOGSIZE <= g.blocks
    requires s.phase.Running? && s.outstanding >= 1 && s.lh == Targets(g, k) && k < LOGSIZE && k < g.size - 1
    requires p < |s.callers| && s.callers[p].Inside? && |s.callers[p].blocks| < MAXOPBLOCKS
    requires Free(s.callers[p], s, |s.callers[p].blocks|, k, g)
    ensures Reach(g, s0, r) && Clean(x, r)
    ensures r.phase == s.phase && r.committing == s.committing && r.outstanding == s.outstanding
    ensures |r.callers| == |s.callers| && |r.ops| == |s.ops| && r.lh == Targets(g, k + 1)
    ensures forall q | 0 <= q < |s.callers| && q != p :: r.callers[q] == s.callers[q]
    ensures Free(r.callers[p], r, |s.callers[p].blocks| + 1, k + 1, g)
  {
    TargetFresh(g, k);
    var b, c := Target(g, k), s.callers[p];
    assert b !in c.blocks && |c.blocks + {b}| == |c.blocks| + 1;
    var m := PassOne(g, s0, s, p, b);
    r := Next(g, m, Locked(p));
    ReachStep(g, s0, m, Locked(p), r);
    assert r.callers[p] == Inside(c.op, c.blocks + {b}, NoWrite);
  }

  lemma PassOne(g: Geometry, s0: State, s: State, p: nat, b: nat) returns (r: State)
    requires Reach(g, s0, s) && CanCheck(g, s, p, b, ZeroBlock()) && !CheckPanics(g, s)
    ensures Reach(g, s0, r) && r == s.(callers := s.callers[p := s.callers[p].(pending := Checked(b, ZeroBlock()))])
  {
    r := Next(g, s, Check(p, b, ZeroBlock()));
    ReachStep(g, s0, s, Check(p, b, ZeroBlock()), r);
  }

  lemma FillOne(g: Geometry, x: Disk, s0: State, s: State, u: seq<nat>, p: nat) returns (r: State)
    requires Reach(g, s0, s) && Filling(g, s, u) && Clean(x, s) && g.start + g.size + LOGSIZE <= g.blocks
    requires p < 3 && u[p] < MAXOPBLOCKS && Total(u) + 1 < g.size
    ensures Reach(g, s0, r) && Filling(g, r, u[p := u[p] + 1]) && Clean(x, r)
  {
    r := LogOne(g, x, s0, s, p, Total(u));
    var v := u[p := u[p] + 1];
    assert Total(v) == Total(u) + 1;
    forall i | 0 <= i < 3
      ensures v[i] <= MAXOPBLOCKS && Free(r.callers[i], r, v[i], Total(v), g)
    {
      if i != p {
        FreeGrows(g, s, r, i, u[i], Total(u));
      }
    }
  }

  lemma {:induction false} Fill(g: Geometry, x: Disk, s0: State, s: State, u: seq<nat>) returns (r: State)
    requires Reach(g, s0, s) && Filling(g, s, [0, 0, 0]) && Clean(x, s) && g.start + g.size + LOGSIZE <= g.blocks
    requires |u| == 3 && u[0] <= MAXOPBLOCKS && u[1] <= MAXOPBLOCKS && u[2] <= MAXOPBLOCKS && Total(u) < g.size
    ensures Reach(g, s0, r) && Filling(g, r, u) && Clean(x, r)
    decreases Total(u)
  {
    if Total(u) == 0 {
      assert u == [0, 0, 0];
      r := s;
    } else {
      var p := if u[0] > 0 then 0 else if u[1] > 0 then 1 else 2;
      var v := u[p := u[p] - 1];
      var q := Fill(g, x, s0, s, v);
      r := FillOne(g, x, s0, q, v, p);
      assert v[p := v[p] + 1] == u;
    }
  }

  lemma FreeGrows(g: Geometry, s: State, r: State, q: nat, used: nat, k: nat)
    requires q < |s.callers| && q < |r.callers| && r.callers[q] == s.callers[q] && |r.ops| == |s.ops|
    requires Free(s.callers[q], s, used, k, g)
    ensures Free(r.callers[q], r, used, k + 1, g)
  {
    assert Targets(g, k) == Targets(g, k + 1)[..k];
  }

  // ---- the two ways space runs out ----

  /** With room for all that is reserved, rewriting a block already in a full log
      still panics: the size test comes before the search for the block. */
  lemma AbsorbedWriteCanPanic(g: Geometry, d: Disk, n: nat)
    requires Roomy(g, d, n) && g.size > LOGSIZE
    ensures exists s: State, b: nat ::
              Reach(g, Boot(d, n), s) && CanCheck(g, s, 0, b, ZeroBlock()) && b in s.lh && CheckPanics(g, s)
  {
    var s0 := StartThree(g, d, n);
    var s := Fill(g, Recovered(g, d), Boot(d, n), s0, [MAXOPBLOCKS, MAXOPBLOCKS, MAXOPBLOCKS]);
    var b :| b in s.callers[0].blocks;
    assert s.callers[0].blocks + {b} == s.callers[0].blocks;
    assert b in s.lh;
    var i :| 0 <= i < |s.lh| && s.lh[i] == b;
    assert s.lh[i] == Target(g, i);
    assert Home(g, b);
  }

  /** k blocks as three operations may log them, with room left in the last two. */
  function Spread(k: nat): (u: seq<nat>)
    requires k < LOGSIZE - 1
    ensures |u| == 3 && Total(u) == k
    ensures u[0] <= MAXOPBLOCKS && u[1] < MAXOPBLOCKS && u[2] < MAXOPBLOCKS
  {
    var a := if k < MAXOPBLOCKS then k else MAXOPBLOCKS;
    var b := if k - a < MAXOPBLOCKS - 1 then k - a else MAXOPBLOCKS - 1;
    [a, b, k - a - b]
  }

  /** A block that is not yet in the log can panic exactly in logs of LOGSIZE blocks or
      fewer: there begin_op reserves at least a block too many. */
  lemma NewBlockPanicsExactly(g: Geometry, d: Disk, n: nat)
    requires Roomy(g, d, n)
    ensures (exists s: State, p: nat, b: nat ::
               && Reach(g, Boot(d, n), s) && CanCheck(g, s, p, b, ZeroBlock()) && b !in s.lh && CheckPanics(g, s))
            <==> g.size <= LOGSIZE
  {
    if g.size <= LOGSIZE {
      var k := g.size - 1;
      var u := if k < LOGSIZE - 1 then Spread(k) else [MAXOPBLOCKS, MAXOPBLOCKS, MAXOPBLOCKS - 1];
      var s := StartThree(g, d, n);
      s := Fill(g, Recovered(g, d), Boot(d, n), s, u);
      TargetFresh(g, k);
      assert CanCheck(g, s, 2, Target(g, k), ZeroBlock());
    } else {
      forall s: State, p: nat, b: nat |
          Reach(g, Boot(d, n), s) && CanCheck(g, s, p, b, ZeroBlock()) && b !in s.lh
        ensures !CheckPanics(g, s)
      {
        var es: seq<Event> :| Exec(g, Boot(d, n), es) == Some(s);
        PanicExactly(g, d, n, es, p, b, ZeroBlock());
      }
    }
  }

  /** Two callers can both pass the size test before either appends: in a log of
      LOGSIZE blocks or fewer (mkfs makes LOGSIZE) it then names as many blocks as the
      whole area holds. */
  lemma RaceOverrunsLog(g: Geometry, d: Disk, n: nat)
    requires Roomy(g, d, n) && 2 <= g.size <= LOGSIZE
    ensures exists s: State :: Reach(g, Boot(d, n), s) && Up(s) && |s.lh| == g.size
  {
    var s := Overrun(g, d, n, ZeroBlock());
  }

  /** All three operations are done with their writes; the log names as many blocks as
      its area holds, the last of them to be written as `data`. */
  ghost predicate Overfull(g: Geometry, x: Disk, s: State, k: nat, data: Block) {
    && Clean(x, s) && !s.committing && s.phase.Running? && |s.callers| >= 3
    && |s.lh| == g.size && g.size >= 1 && s.pinned[s.lh[g.size - 1]] == data
    && s.outstanding == 3 - k && k <= 3
    && forall i | k <= i < 3 :: s.callers[i].Inside? && s.callers[i].pending.NoWrite? && s.callers[i].op < |s.ops|
  }

  lemma Overrun(g: Geometry, d: Disk, n: nat, data: Block) returns (r: State)
    requires Roomy(g, d, n) && 2 <= g.size <= LOGSIZE
    ensures Reach(g, Boot(d, n), r) && Overfull(g, Recovered(g, d), r, 0, data)
  {
    var k := g.size - 2;
    var s := StartThree(g, d, n);
    s := Fill(g, Recovered(g, d), Boot(d, n), s, Spread(k));
    r := Race(g, Recovered(g, d), Boot(d, n), s, k, data);
  }

  /** Callers 1 and 2 both pass the test, then both append. */
  lemma Race(g: Geometry, x: Disk, s0: State, s: State, k: nat, data: Block) returns (r: State)
    requires Reach(g, s0, s) && g.start + g.size + LOGSIZE <= g.blocks && Clean(x, s) && g.size == k + 2
    requires k + 1 < LOGSIZE && Filling(g, s, Spread(k))
    ensures Reach(g, s0, r) && Overfull(g, x, r, 0, data)
  {
    TargetFresh(g, k);
    TargetFresh(g, k + 1);
    assert Target(g, k + 1) !in Targets(g, k);
    r := PassTwo(g, s0, s, Target(g, k), Target(g, k + 1), data);
    r := AppendTwo(g, x, s0, r, Target(g, k), Target(g, k + 1), data);
  }

  lemma PassTwo(g: Geometry, s0: State, s: State, b: nat, c: nat, data: Block) returns (r: State)
    requires Reach(g, s0, s) && s.phase.Running? && |s.callers| >= 3 && !CheckPanics(g, s)
    requires CanCheck(g, s, 1, b, ZeroBlock()) && CanCheck(g, s, 2, c, data)
    ensures Reach(g, s0, r)
    ensures r == s.(callers := s.callers[1 := s.callers[1].(pending := Checked(b, ZeroBlock()))]
                               [2 := s.callers[2].(pending := Checked(c, data))])
  {
    var s1 := Next(g, s, Check(1, b, ZeroBlock()));
    ReachStep(g, s0, s, Check(1, b, ZeroBlock()), s1);
    r := Next(g, s1, Check(2, c, data));
    ReachStep(g, s0, s1, Check(2, c, data), r);
  }

  lemma AppendTwo(g: Geometry, x: Disk, s0: State, s: State, b: nat, c: nat, data: Block) returns (r: State)
    requires Reach(g, s0, s) && Clean(x, s) && s.phase.Running? && !s.committing && s.outstanding == 3
    requires |s.lh| + 2 == g.size && b !in s.lh && c !in s.lh && b != c && |s.callers| >= 3
    requires forall i | 0 <= i < 3 :: s.callers[i].Inside? && s.callers[i].op < |s.ops|
    requires s.callers[0].pending.NoWrite?
    requires s.callers[1].pending == Checked(b, ZeroBlock()) && s.callers[2].pending == Checked(c, data)
    ensures Reach(g, s0, r) && Overfull(g, x, r, 0, data)
  {
    var s3 := Next(g, s, Locked(1));
    ReachStep(g, s0, s, Locked(1), s3);
    r := Next(g, s3, Locked(2));
    ReachStep(g, s0, s3, Locked(2), r);
    assert r.lh == s.lh + [b] + [c];
  }

  // ---- what an overrun does to the disk ----

  lemma EndOne(g: Geometry, x: Disk, s0: State, s: State, k: nat, data: Block) returns (r: State)
    requires Reach(g, s0, s) && Overfull(g, x, s, k, data) && k < 2
    ensures Reach(g, s0, r) && Overfull(g, x, r, k + 1, data)
  {
    r := Next(g, s, End(k));
    ReachStep(g, s0, s, End(k), r);
  }

  /** write_log has copied its first t blocks, each just above the one before. */
  ghost predicate Copying(g: Geometry, x: Disk, s: State, t: nat, data: Block) {
    && |s.disk| == |x| == g.blocks && s.committed == []
    && |s.lh| == g.size && g.start + g.size < g.blocks && g.size >= 1
    && (forall i | 0 <= i < |s.lh| :: s.lh[i] in s.pinned) && s.pinned[s.lh[g.size - 1]] == data
    && s.phase == CopyingLog(t) && t <= g.size
    && s.disk[g.start] == x[g.start]
    && (t == g.size ==> s.disk[g.start + g.size] == data)
  }

  lemma {:induction false} CopyAll(g: Geometry, x: Disk, s0: State, s: State, t: nat, data: Block) returns (r: State)
    requires Reach(g, s0, s) && Copying(g, x, s, t, data)
    ensures Reach(g, s0, r) && Copying(g, x, r, g.size, data)
    decreases g.size - t
  {
    if t == g.size {
      r := s;
    } else {
      var q := Next(g, s, CopyBlock);
      ReachStep(g, s0, s, CopyBlock, q);
      r := CopyAll(g, x, s0, q, t + 1, data);
    }
  }

  /** With nothing committed yet, the last copy has replaced the home block after the
      log area by the contents of another. */
  lemma OverrunCorrupts(g: Geometry, d: Disk, n: nat)
    requires Roomy(g, d, n) && 2 <= g.size <= LOGSIZE
    ensures exists s: State :: Reach(g, Boot(d, n), s) && !Safe(g, Recovered(g, d), s)
  {
    var home := g.start + g.size;
    var was := Recovered(g, d)[home];
    var data: Block := if was == ZeroBlock() then ZeroBlock()[0 := 1] else ZeroBlock();
    assert data != was by {
      assert ZeroBlock()[0] == 0;
    }
    var s := Overrun(g, d, n, data);
    s := EndOne(g, Recovered(g, d), Boot(d, n), s, 0, data);
    s := EndOne(g, Recovered(g, d), Boot(d, n), s, 1, data);
    var c := Next(g, s, End(2));
    ReachStep(g, Boot(d, n), s, End(2), c);
    var r := CopyAll(g, Recovered(g, d), Boot(d, n), c, 0, data);
    assert Home(g, home);
    Corrupted(g, Recovered(g, d), r, data);
  }

  lemma Corrupted(g: Geometry, x: Disk, s: State, data: Block)
    requires Copying(g, x, s, g.size, data) && HeadOk(g, x) && Header(g, x) == [] && data != x[g.start + g.size]
    ensures !Safe(g, x, s)
  {
    var home := g.start + g.size;
    assert Home(g, home) && ApplyGroups(x, s.committed) == x;
    assert HeadOk(g, s.disk) && Header(g, s.disk) == [];
    EmptyHeadRecoverable(g, s.disk, s.disk);
    RecoveredHome(g, s.disk, s.disk);
    assert Recovered(g, s.disk)[home] == data;
  }

  // ---- exactly which logs are safe ----

  lemma LogFits(g: Geometry, d: Disk, n: nat, es: seq<Event>)
    requires g.size > LOGSIZE || g.size == 1
    ensures Fits(g, Boot(d, n), es)
  {
    if g.size == 1 {
      OneBlockLogFits(g, Boot(d, n), es);
    } else {
      BootBudget(d, n);
      BigLogFits(g, Boot(d, n), es);
    }
  }

  lemma {:induction false} FitsAtEnd(g: Geometry, s: State, es: seq<Event>)
    requires Fits(g, s, es) && Exec(g, s, es).Some?
    ensures |Exec(g, s, es).value.lh| < g.size
    decreases |es|
  {
    if es != [] {
      FitsAtEnd(g, Next(g, s, es[0]), es[1..]);
    }
  }

  /** The logged blocks fit the log area in every run if and only if the area is
      larger than LOGSIZE blocks (or has no room for copies at all). */
  lemma LogFitsExactly(g: Geometry, d: Disk, n: nat)
    requires Roomy(g, d, n)
    ensures (forall s: State :: Reach(g, Boot(d, n), s) ==> |s.lh| < g.size)
            <==> (g.size > LOGSIZE || g.size == 1)
  {
    if g.size > LOGSIZE || g.size == 1 {
      forall s: State | Reach(g, Boot(d, n), s)
        ensures |s.lh| < g.size
      {
        var es: seq<Event> :| Exec(g, Boot(d, n), es) == Some(s);
        LogFits(g, d, n, es);
        FitsAtEnd(g, Boot(d, n), es);
      }
    } else {
      RaceOverrunsLog(g, d, n);
    }
  }

  /** Every run is crash safe if and only if the log area is larger than LOGSIZE blocks
      (or has no room for copies at all). */
  lemma CrashSafeExactly(g: Geometry, d: Disk, n: nat)
    requires Roomy(g, d, n)
    ensures (forall s: State :: Reach(g, Boot(d, n), s) ==> Safe(g, Recovered(g, d), s))
            <==> (g.size > LOGSIZE || g.size == 1)
  {
    if g.size > LOGSIZE || g.size == 1 {
      forall s: State | Reach(g, Boot(d, n), s)
        ensures Safe(g, Recovered(g, d), s)
      {
        var es: seq<Event> :| Exec(g, Boot(d, n), es) == Some(s);
        LogFits(g, d, n, es);
        CrashSafe(g, d, n, es);
      }
    } else {
      OverrunCorrupts(g, d, n);
    }
  }
}
