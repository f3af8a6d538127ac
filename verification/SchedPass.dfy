/** One pass of scheduler() over ctable: how often it dispatches one process. */
module SchedPass {
  import opened Basics
  import opened SchedMachine

  function Count(log: seq<nat>, p: nat): nat {
    if log == [] then 0 else Count(log[..|log| - 1], p) + if log[|log| - 1] == p then 1 else 0
  }

  /** CPU c looks at slot p in the turn of container j. */
  ghost predicate LooksAt(s: State, e: Event, c: nat, p: nat, j: nat) {
    e == Step(c) && c < |s.cpus| && s.cpus[c].pc.Scan? && s.cpus[c].con == j && s.cpus[c].slot == p
  }

  ghost predicate NewPass(s: State, e: Event, c: nat) {
    e == Step(c) && c < |s.cpus| && s.cpus[c].pc.Pick? && s.cpus[c].con >= |s.cons|
  }

  /** Some look in the run, at a RUNNABLE process if that is asked for. */
  ghost predicate Looked(s: State, es: seq<Event>, c: nat, p: nat, j: nat, runnable: bool)
    requires Exec(s, es).Some?
    decreases |es|
  {
    es != [] && ((LooksAt(s, es[0], c, p, j) && (runnable ==> p < |s.st| && s.st[p].Runnable?))
                 || Looked(Next(s, es[0]), es[1..], c, p, j, runnable))
  }

  /** All through the run p is in container j, CPU c does not start a new pass, and, if
      `waiting`, container j is CWAITING. */
  ghost predicate Stays(s: State, es: seq<Event>, c: nat, p: nat, j: nat, waiting: bool)
    requires Exec(s, es).Some?
    decreases |es|
  {
    && p < |s.cid| && s.cid[p] == j && j < |s.cons| && (waiting ==> s.cons[j].CWaiting?)
    && (es == [] || (!NewPass(s, es[0], c) && Stays(Next(s, es[0]), es[1..], c, p, j, waiting)))
  }

  /** The CPU has not yet come to slot p of container j's turn. */
  predicate Before(u: Cpu, p: nat, j: nat) {
    u.con < j || (u.con == j && (u.pc.Pick? || u.pc.Acquire? || u.slot < p || (u.pc.Scan? && u.slot == p)))
  }

  /** It has picked p there and not yet marked it RUNNING. */
  predicate Picked(u: Cpu, p: nat, j: nat) { u.con == j && u.slot == p && u.pc.Mark? }

  /** Where the pass is, whether it has looked at p, whether p was RUNNABLE then, and
      how often p has been dispatched. */
  ghost predicate PassInv(u: Cpu, p: nat, j: nat, looked: bool, seen: bool) {
    && (Before(u, p, j) ==> !looked && !seen)
    && (Picked(u, p, j) ==> seen)
    && (u.pc.Mark? && u.slot == p ==> u.con == j)
    && Count(u.log, p) == if seen && !Picked(u, p, j) then 1 else 0
  }

  lemma CountSnoc(log: seq<nat>, x: nat, p: nat)
    ensures Count(log + [x], p) == Count(log, p) + if x == p then 1 else 0
  {
    assert (log + [x])[..|log|] == log;
  }

  lemma StepPass(s: State, e: Event, c: nat, p: nat, j: nat, looked: bool, seen: bool)
    requires Inv(s) && Enabled(s, e) && c < |s.cpus| && !NewPass(s, e, c)
    requires p < |s.st| && s.cid[p] == j && PassInv(s.cpus[c], p, j, looked, seen)
    ensures |Next(s, e).cpus| == |s.cpus|
    ensures PassInv(Next(s, e).cpus[c], p, j, looked || LooksAt(s, e, c, p, j),
                    seen || (LooksAt(s, e, c, p, j) && s.st[p].Runnable?))
  {
    assert CpuOk(s, c);
    CountSnoc(s.cpus[c].log, s.cpus[c].slot, p);
  }

  /** A pass leaves slot p of turn j behind only by looking at it, or by skipping the
      turn of a container that is not CWAITING. */
  lemma StepLooks(s: State, e: Event, c: nat, p: nat, j: nat)
    requires Inv(s) && Enabled(s, e) && c < |s.cpus| && !NewPass(s, e, c) && p < |s.st|
    requires j < |s.cons| && s.cons[j].CWaiting? && Before(s.cpus[c], p, j)
    ensures |Next(s, e).cpus| == |s.cpus|
    ensures Before(Next(s, e).cpus[c], p, j) || LooksAt(s, e, c, p, j)
  {
    assert CpuOk(s, c);
  }

  lemma {:induction false} RunPass(s: State, es: seq<Event>, c: nat, p: nat, j: nat, waiting: bool, looked: bool, seen: bool)
    requires Inv(s) && Exec(s, es).Some? && c < |s.cpus| && p < |s.st| && Stays(s, es, c, p, j, waiting)
    requires PassInv(s.cpus[c], p, j, looked, seen)
    requires waiting && !Before(s.cpus[c], p, j) ==> looked
    ensures var t := Exec(s, es).value;
            && |t.cpus| == |s.cpus|
            && PassInv(t.cpus[c], p, j, looked || Looked(s, es, c, p, j, false), seen || Looked(s, es, c, p, j, true))
            && (waiting && !Before(t.cpus[c], p, j) ==> looked || Looked(s, es, c, p, j, false))
    decreases |es|
  {
    if es != [] {
      var e, r := es[0], Next(s, es[0]);
      StepPass(s, e, c, p, j, looked, seen);
      if waiting && Before(s.cpus[c], p, j) {
        StepLooks(s, e, c, p, j);
      }
      StepKeepsInv(s, e);
      StepShape(s, e);
      RunPass(r, es[1..], c, p, j, waiting, looked || LooksAt(s, e, c, p, j),
              seen || (LooksAt(s, e, c, p, j) && s.st[p].Runnable?));
    }
  }

  // ---- turns begin only for containers that are CWAITING ----

  /** CPU c begins the turn of container j, finding it CWAITING. */
  ghost predicate Begins(s: State, e: Event, c: nat, j: nat) {
    && e == Step(c) && c < |s.cpus| && s.cpus[c].pc.Pick? && s.cpus[c].con == j
    && j < |s.cons| && s.cons[j].CWaiting?
  }

  /** Somewhere in the run CPU c begins j's turn so, and does not leave it again. */
  ghost predicate TurnBegan(s: State, es: seq<Event>, c: nat, j: nat)
    requires Exec(s, es).Some?
    decreases |es|
  {
    es != [] && ((Begins(s, es[0], c, j) && StaysIn(Next(s, es[0]), es[1..], c, j))
                 || TurnBegan(Next(s, es[0]), es[1..], c, j))
  }

  /** CPU c is past the test of j's turn, all through the run. */
  ghost predicate StaysIn(s: State, es: seq<Event>, c: nat, j: nat)
    requires Exec(s, es).Some?
    decreases |es|
  {
    InTurn(s, c, j) && (es == [] || StaysIn(Next(s, es[0]), es[1..], c, j))
  }

  ghost predicate InTurn(s: State, c: nat, j: nat) {
    c < |s.cpus| && s.cpus[c].con == j && !s.cpus[c].pc.Pick?
  }

  lemma EntersTurn(s: State, e: Event, c: nat, j: nat)
    requires Enabled(s, e) && c < |s.cpus| && !InTurn(s, c, j) && InTurn(Next(s, e), c, j)
    ensures Begins(s, e, c, j)
  {
  }

  /** A CPU that is in j's turn began it in this run, with j CWAITING then, unless it has
      been in it all along. */
  lemma {:induction false} InTurnBegan(s: State, es: seq<Event>, c: nat, j: nat)
    requires Inv(s) && Exec(s, es).Some? && c < |s.cpus| && InTurn(Exec(s, es).value, c, j)
    ensures TurnBegan(s, es, c, j) || StaysIn(s, es, c, j)
    decreases |es|
  {
    if es != [] {
      StepKeepsInv(s, es[0]);
      StepShape(s, es[0]);
      InTurnBegan(Next(s, es[0]), es[1..], c, j);
      if !TurnBegan(Next(s, es[0]), es[1..], c, j) && !InTurn(s, c, j) {
        EntersTurn(s, es[0], c, j);
      }
    }
  }

  /** Over every run from boot: a CPU about to dispatch a process began the turn of the
      container it takes it from, found it CWAITING, and has been in that turn since. */
  lemma DispatchNeedsWaiting(s: State, es: seq<Event>, c: nat)
    requires Boot(s) && Exec(s, es).Some? && c < |s.cpus| && c < |Exec(s, es).value.cpus|
    requires Exec(s, es).value.cpus[c].pc.Mark?
    ensures TurnBegan(s, es, c, Exec(s, es).value.cpus[c].con)
  {
    BootInv(s);
    InTurnBegan(s, es, c, Exec(s, es).value.cpus[c].con);
  }

  /** Somewhere in the run CPU c begins j's turn. */
  ghost predicate Begun(s: State, es: seq<Event>, c: nat, j: nat)
    requires Exec(s, es).Some?
    decreases |es|
  {
    es != [] && (Begins(s, es[0], c, j) || Begun(Next(s, es[0]), es[1..], c, j))
  }

  lemma {:induction false} LookedBegan(s: State, es: seq<Event>, c: nat, p: nat, j: nat, runnable: bool)
    requires Inv(s) && Exec(s, es).Some? && c < |s.cpus| && Looked(s, es, c, p, j, runnable)
    ensures InTurn(s, c, j) || Begun(s, es, c, j)
    decreases |es|
  {
    if !LooksAt(s, es[0], c, p, j) {
      StepKeepsInv(s, es[0]);
      StepShape(s, es[0]);
      LookedBegan(Next(s, es[0]), es[1..], c, p, j, runnable);
      if InTurn(Next(s, es[0]), c, j) && !InTurn(s, c, j) {
        EntersTurn(s, es[0], c, j);
      }
    }
  }

  /** In one pass of one CPU over ctable, among any number of CPUs, a process that stays
      in container j is dispatched once if it is RUNNABLE when its slot is looked at in
      j's turn, and not at all otherwise; it is looked at if j stays CWAITING, and
      dispatched only if j was CWAITING when its turn began. */
  lemma DispatchedOncePerPass(s: State, es: seq<Event>, t: State, c: nat, p: nat, j: nat, waiting: bool)
    requires Inv(s) && Exec(s, es) == Some(t) && c < |s.cpus| && p < |s.st| && Stays(s, es, c, p, j, waiting)
    requires s.cpus[c].pc.Pick? && s.cpus[c].con == 0 && s.cpus[c].log == []
    requires |t.cpus| == |s.cpus| && t.cpus[c].pc.Pick? && t.cpus[c].con >= |t.cons| > j
    ensures Count(t.cpus[c].log, p) == if Looked(s, es, c, p, j, true) then 1 else 0
    ensures waiting ==> Looked(s, es, c, p, j, false)
    ensures Count(t.cpus[c].log, p) == 1 ==> Begun(s, es, c, j)
  {
    RunPass(s, es, c, p, j, waiting, false, false);
    if Looked(s, es, c, p, j, true) {
      LookedBegan(s, es, c, p, j, true);
    }
  }
}
