/** Runs of the log in which operations do not overlap: what is durable at any moment is
    a number of whole operations, in the order they were made. */
module LogSerial {
  import opened Basics
  import opened LogFormat
  import opened LogMachine
  import opened LogProofs
  import opened LogReservation

  /** At most one operation is active in any state of the run, and there is no crash
      before its end. */
  ghost predicate Serial(g: Geometry, s: State, es: seq<Event>)
    decreases |es|
  {
    && s.outstanding <= 1
    && (es != [] && Enabled(g, s, es[0]) ==> es[0] != Crash && Serial(g, Next(g, s, es[0]), es[1..]))
  }

  /** Disk d after the writes of operations o0 to k - 1. */
  function OpsDisk(d: Disk, ops: seq<Op>, o0: nat, k: nat): Disk
    requires o0 <= k <= |ops|
  {
    if k == o0 then d else ApplyWrites(OpsDisk(d, ops, o0, k - 1), ops[k - 1].writes)
  }

  predicate LastOpen(s: State) { s.ops != [] && s.ops[|s.ops| - 1].fate == In(|s.committed|) }

  /** How many operations are settled: all but, perhaps, the last. */
  function Durable(s: State): (k: nat)
    ensures k <= |s.ops|
  {
    if LastOpen(s) then |s.ops| - 1 else |s.ops|
  }

  /** Where the serial part of a run begins: the disk the whole run began with, what was
      committed by then, and how many operations there had been. */
  datatype Origin = Origin(init: Disk, base: Disk, ops: nat)

  ghost predicate SerialInv(z: Origin, s: State) {
    && z.ops <= Durable(s)
    && (forall o {:trigger s.ops[o]} | z.ops <= o < |s.ops| :: s.ops[o].fate.In?)
    && (forall o {:trigger s.ops[o]} | 0 <= o < |s.ops| - 1 && s.ops[o].fate.In? :: s.ops[o].fate.group < |s.committed|)
    && ApplyGroups(z.init, s.committed) == OpsDisk(z.base, s.ops, z.ops, Durable(s))
    && s.current == (if LastOpen(s) then s.ops[|s.ops| - 1].writes else [])
    && (LastOpen(s) && !s.phase.Panicked? ==> s.phase.CopyingLog? || (s.phase.Running? && s.outstanding == 1))
  }

  lemma {:induction false} OpsDiskSame(d: Disk, ops: seq<Op>, qs: seq<Op>, o0: nat, k: nat)
    requires o0 <= k <= |ops| && k <= |qs| && forall o | 0 <= o < k :: ops[o].writes == qs[o].writes
    ensures OpsDisk(d, ops, o0, k) == OpsDisk(d, qs, o0, k)
  {
    if k > o0 {
      OpsDiskSame(d, ops, qs, o0, k - 1);
    }
  }

  /** Only a new operation changes what the others did. */
  lemma SameSerial(z: Origin, s: State, r: State)
    requires SerialInv(z, s) && r.ops == s.ops && r.committed == s.committed && r.current == s.current
    requires LastOpen(s) && !r.phase.Panicked? ==> r.phase.CopyingLog? || (r.phase.Running? && r.outstanding == 1)
    ensures SerialInv(z, r)
  {
  }

  lemma NewSerial(z: Origin, s: State, p: nat, r: State)
    requires SerialInv(z, s) && !LastOpen(s) && r.phase.Running? && r.outstanding == 1
    requires s.ops != [] && s.ops[|s.ops| - 1].fate.In? ==> s.ops[|s.ops| - 1].fate.group <= |s.committed|
    requires r.ops == s.ops + [Op(p, false, In(|s.committed|), [])] && r.committed == s.committed && r.current == s.current
    ensures SerialInv(z, r)
  {
    OpsDiskSame(z.base, s.ops, r.ops, z.ops, |s.ops|);
  }

  lemma BeginSerial(z: Origin, s: State, p: nat, r: State)
    requires BudgetInv(s) && OpsInv(s) && SerialInv(z, s) && CanBegin(s, p)
    requires r == BeginStep(s, p) && r.outstanding <= 1
    ensures SerialInv(z, r)
  {
    if Admits(s) {
      NewSerial(z, s, p, r);
    } else {
      SameSerial(z, s, r);
    }
  }

  lemma LockedSerial(z: Origin, s: State, p: nat, r: State)
    requires OpsInv(s) && SerialInv(z, s) && CanLock(s, p)
    requires r == LockedStep(s, p)
    ensures SerialInv(z, r)
  {
    assert s.callers[p].op == |s.ops| - 1;
    OpsDiskSame(z.base, s.ops, r.ops, z.ops, Durable(s));
  }

  lemma EndSerial(z: Origin, s: State, p: nat, r: State)
    requires BudgetInv(s) && OpsInv(s) && SerialInv(z, s) && CanEnd(s, p) && s.outstanding <= 1
    requires r == EndStep(s, p)
    ensures SerialInv(z, r)
  {
    SomeoneInside(s, p);
    assert s.callers[p].op == |s.ops| - 1;
    OpsDiskSame(z.base, s.ops, r.ops, z.ops, Durable(s));
  }

  lemma CommitSerial(z: Origin, s: State, r: State)
    requires OpsInv(s) && SerialInv(z, s) && r.ops == s.ops
    requires r.committed == s.committed + [s.current] && r.current == []
    ensures SerialInv(z, r)
  {
    ApplyGroupsSnoc(z.init, s.committed, s.current);
    assert ApplyWrites(ApplyGroups(z.init, s.committed), []) == ApplyGroups(z.init, s.committed);
    if s.ops != [] && s.ops[|s.ops| - 1].fate.In? {
      assert s.ops[|s.ops| - 1].fate.group <= |s.committed|;
    }
  }

  lemma SerialStep(g: Geometry, z: Origin, s: State, e: Event, r: State)
    requires BudgetInv(s) && OpsInv(s) && SerialInv(z, s) && s.outstanding <= 1
    requires Enabled(g, s, e) && e != Crash && r == Next(g, s, e) && r.outstanding <= 1
    ensures SerialInv(z, r)
  {
    match e
    case Begin(p) => BeginSerial(z, s, p, r);
    case Locked(p) => LockedSerial(z, s, p, r);
    case End(p) => EndSerial(z, s, p, r);
    case CommitNothing => CommitSerial(z, s, r);
    case CommitHead => CommitSerial(z, s, r);
    case _ => OtherSerial(g, z, s, e, r);
  }

  lemma OtherSerial(g: Geometry, z: Origin, s: State, e: Event, r: State)
    requires SerialInv(z, s) && Enabled(g, s, e) && r == Next(g, s, e)
    requires !e.Begin? && !e.Locked? && !e.End? && !e.Crash? && !e.CommitNothing? && !e.CommitHead?
    ensures SerialInv(z, r)
  {
    SameSerial(z, s, r);
  }

  lemma {:induction false} SerialRun(g: Geometry, z: Origin, s: State, es: seq<Event>)
    requires BudgetInv(s) && OpsInv(s) && SerialInv(z, s) && Serial(g, s, es)
    ensures Exec(g, s, es).Some? ==> SerialInv(z, Exec(g, s, es).value)
    decreases |es|
  {
    if es != [] && Enabled(g, s, es[0]) {
      var r := Next(g, s, es[0]);
      StepKeepsBudget(g, s, es[0], r);
      StepKeepsOps(g, s, es[0], r);
      SerialStep(g, z, s, es[0], r);
      SerialRun(g, z, r, es[1..]);
    }
  }

  // ---- such runs cannot race ----

  lemma OneInside(s: State, p: nat, q: nat)
    requires BudgetInv(s) && s.outstanding <= 1 && Passed(s, p) && Passed(s, q)
    ensures p == q
  {
    if p != q {
      SumUpdate(One, s.callers, p, Outside);
      SumAtLeast(One, s.callers[p := Outside], q);
    }
  }

  lemma {:induction false} SerialUnraced(g: Geometry, s: State, es: seq<Event>)
    requires BudgetInv(s) && Serial(g, s, es)
    ensures Unraced(g, s, es)
    decreases |es|
  {
    forall p, q | Passed(s, p) && Passed(s, q)
      ensures p == q
    {
      OneInside(s, p, q);
    }
    if es != [] && Enabled(g, s, es[0]) {
      StepKeepsBudget(g, s, es[0], Next(g, s, es[0]));
      SerialUnraced(g, Next(g, s, es[0]), es[1..]);
    }
  }

  /** From a state with no operation active, the log fits its area throughout. */
  lemma SerialFits(g: Geometry, s: State, es: seq<Event>)
    requires BudgetInv(s) && Quiet(s) && |s.lh| < g.size && Serial(g, s, es)
    ensures Fits(g, s, es)
  {
    SerialUnraced(g, s, es);
    NoneInside(s);
    UnracedLogFits(g, s, es);
  }

  /** What is on the disk of a serial run, once recovered: what was committed when it
      began and the writes of its first operations, all of them for each, and no others. */
  ghost predicate WholeOps(g: Geometry, base: Disk, o0: nat, s: State) {
    && o0 <= Durable(s) && |s.ops| - 1 <= Durable(s)
    && HeadOk(g, s.disk)
    && SameHome(g, Recovered(g, s.disk), OpsDisk(base, s.ops, o0, Durable(s)))
    && forall o | o0 <= o < Durable(s) :: s.ops[o].finished
  }

  lemma SafeWholeOps(g: Geometry, z: Origin, s: State)
    requires Inv(g, z.init, s) && SerialInv(z, s)
    ensures WholeOps(g, z.base, z.ops, s)
  {
    RecoveredHome(g, s.disk, ApplyGroups(z.init, s.committed));
    forall o | z.ops <= o < Durable(s)
      ensures s.ops[o].finished
    {
      assert OpAtomic(s, o) && s.ops[o].fate.group <= |s.committed|;
    }
  }

  /** Take any run, crashes and overlapping operations included, up to a moment when no
      operation is active and the log is settled, and let it go on serially. If the
      machine stopped now, recovery would give what was committed at that moment and then
      whole operations in order; at most the last is missing. */
  lemma SerialCrashSafe(g: Geometry, d: Disk, n: nat, es0: seq<Event>, s0: State, es: seq<Event>, s: State)
    requires HeadOk(g, d) && Fits(g, Boot(d, n), es0) && Exec(g, Boot(d, n), es0) == Some(s0) && Quiet(s0)
    requires Serial(g, s0, es) && Exec(g, s0, es) == Some(s)
    ensures WholeOps(g, ApplyGroups(Recovered(g, d), s0.committed), |s0.ops|, s)
  {
    var z := Origin(Recovered(g, d), ApplyGroups(Recovered(g, d), s0.committed), |s0.ops|);
    BootInv(g, d, n);
    RunKeepsInv(g, z.init, Boot(d, n), es0);
    RunSettles(g, Boot(d, n), es0);
    SerialFrom(g, z, s0, es);
  }

  lemma SerialFrom(g: Geometry, z: Origin, s0: State, es: seq<Event>)
    requires Inv(g, z.init, s0) && SettledInv(s0) && Quiet(s0) && Serial(g, s0, es) && Exec(g, s0, es).Some?
    requires z.base == ApplyGroups(z.init, s0.committed) && z.ops == |s0.ops|
    ensures WholeOps(g, z.base, z.ops, Exec(g, s0, es).value)
  {
    SerialRun(g, z, s0, es);
    SerialFits(g, s0, es);
    RunKeepsInv(g, z.init, s0, es);
    SafeWholeOps(g, z, Exec(g, s0, es).value);
  }
}
