/** Mutual exclusion, no lost wakeup and no deadlock for the sleeplock machine. */
module SleepProofs {
  import opened Basics
  import opened SleepMachine

  /** From setting locked to clearing it. */
  predicate Holds(pc: Pc) {
    pc.ASetPid? || pc.ARelease? || pc == Idle(true) || pc.RAcquire? || pc.RClear?
    || (pc.KAcquire? && pc.has) || (pc.KWake? && pc.has) || (pc.KRelease? && pc.has)
  }

  predicate HoldsLk(pc: Pc) {
    pc.ATest? || pc.ASetLocked? || pc.ASetPid? || pc.ARelease? || pc.SAcquire? || pc.SRelease?
    || pc.RClear? || pc.RPid? || pc.RAcquirePt? || pc.RWake? || pc.RReleasePt? || pc.RRelease?
  }

  predicate HoldsPt(pc: Pc) {
    pc.SRelease? || pc.SChan? || pc.SState? || pc.SSwitch? || pc.STidy? || pc.SReleasePt?
    || pc.RWake? || pc.RReleasePt? || pc.KWake? || pc.KRelease?
  }

  /** A releaser that has cleared locked and not yet looked at slot p. */
  predicate WillWake(pc: Pc, p: int) {
    pc.RPid? || pc.RAcquirePt? || (pc.RWake? && pc.slot <= p)
  }

  /** Committed to sleeping on the lock, or asleep. */
  predicate Waiting(pc: Pc, st: PState) {
    pc.SChan? || pc.SState? || ((pc.SSwitch? || pc.SOff?) && st.Sleeping?)
  }

  /** The inner spinlock's holder is a releaser that will still wake slot p. */
  ghost predicate Pending(s: State, p: int) {
    s.lk.Some? && s.lk.value < |s.pcs| && WillWake(s.pcs[s.lk.value], p)
  }

  ghost predicate LocksOk(s: State, p: int)
    requires 0 <= p < |s.pcs|
  {
    && (HoldsLk(s.pcs[p]) <==> s.lk == Some(p))
    && (HoldsPt(s.pcs[p]) <==> s.pt == Some(p))
    && (Holds(s.pcs[p]) <==> s.owner == Some(p))
  }

  ghost predicate FieldsOk(s: State, p: int)
    requires 0 <= p < |s.pcs|
  {
    var pc := s.pcs[p];
    && (Holds(pc) && !pc.ASetPid? ==> s.pid == p + 1)
    && (pc.ASetLocked? ==> !s.locked)
    && (pc.SAcquire? || pc.SRelease? ==> s.locked)
    && (Cleared(pc) ==> !s.locked)
  }

  ghost predicate SleepOk(s: State, p: int)
    requires Shape(s) && 0 <= p < |s.pcs|
  {
    var pc, st := s.pcs[p], s.st[p];
    && (Waiting(pc, st) ==> s.locked || Pending(s, p))
    && (st.Sleeping? ==> pc.SSwitch? || pc.SOff?)
    && (pc.SState? || pc.SSwitch? || pc.SOff? ==> s.chan[p])
    && (pc.SSwitch? ==> st.Sleeping?)
    && (pc.SOff? ==> !st.Running?)
  }

  ghost predicate Inv(s: State) {
    && Shape(s) && (s.locked <==> s.owner.Some?)
    && (s.lk.Some? ==> s.lk.value < |s.pcs|) && (s.pt.Some? ==> s.pt.value < |s.pcs|)
    && (s.owner.Some? ==> s.owner.value < |s.pcs|)
    && (forall p {:trigger LocksOk(s, p)} | 0 <= p < |s.pcs| :: LocksOk(s, p))
    && (forall p {:trigger FieldsOk(s, p)} | 0 <= p < |s.pcs| :: FieldsOk(s, p))
    && (forall p {:trigger SleepOk(s, p)} | 0 <= p < |s.pcs| :: SleepOk(s, p))
  }

  // ---- control flow and the locks ----

  lemma FollowLocks(pc: Pc, locked: bool, n: nat)
    requires !pc.Idle? && !pc.SOff?
    ensures HoldsLk(Follow(pc, locked, n)) <==> TakesLk(pc) || (HoldsLk(pc) && !DropsLk(pc))
    ensures HoldsPt(Follow(pc, locked, n)) <==> TakesPt(pc) || (HoldsPt(pc) && !DropsPt(pc))
    ensures Holds(Follow(pc, locked, n)) <==> pc.ASetLocked? || (Holds(pc) && !pc.RClear?)
  {
  }

  lemma DropsHeld(pc: Pc)
    ensures DropsLk(pc) ==> HoldsLk(pc)
    ensures DropsPt(pc) ==> HoldsPt(pc)
    ensures pc.RClear? || pc.ASetLocked? ==> HoldsLk(pc)
    ensures pc.RClear? ==> Holds(pc)
  {
  }

  /** What one step of p does, seen from process q. */
  lemma StepLocks(s: State, p: nat, r: State, q: nat)
    requires Inv(s) && Enabled(s, Step(p)) && r == StepOf(s, p) && q < |s.pcs|
    ensures LocksOk(r, q)
  {
    assert LocksOk(s, p) && LocksOk(s, q) && FieldsOk(s, p);
    FollowLocks(s.pcs[p], s.locked, |s.pcs|);
    DropsHeld(s.pcs[p]);
  }

  lemma FollowFields(pc: Pc, locked: bool, n: nat)
    requires !pc.Idle? && !pc.SOff?
    ensures var nx := Follow(pc, locked, n);
            && (nx.ASetLocked? ==> pc.ATest? && !locked)
            && (nx.SAcquire? ==> pc.ATest? && locked)
            && (nx.SRelease? ==> pc.SAcquire?)
            && (Cleared(nx) ==> pc.RClear? || Cleared(pc))
            && (Holds(nx) && !nx.ASetPid? ==> pc.ASetPid? || (Holds(pc) && !pc.ASetPid?))
  {
  }

  /** A releaser past the clearing of locked. */
  predicate Cleared(pc: Pc) { pc.RPid? || pc.RAcquirePt? || pc.RWake? || pc.RReleasePt? || pc.RRelease? }

  lemma StepFields(s: State, p: nat, r: State, q: nat)
    requires Inv(s) && Enabled(s, Step(p)) && r == StepOf(s, p) && q < |s.pcs|
    ensures FieldsOk(r, q)
  {
    assert LocksOk(s, p) && LocksOk(s, q) && FieldsOk(s, p) && FieldsOk(s, q);
    FollowFields(s.pcs[p], s.locked, |s.pcs|);
    DropsHeld(s.pcs[p]);
  }

  lemma FollowSleep(pc: Pc, locked: bool, n: nat, q: nat)
    requires !pc.Idle? && !pc.SOff? && q < n
    ensures var nx := Follow(pc, locked, n);
            && (nx.SChan? <==> pc.SRelease?) && (nx.SState? <==> pc.SChan?)
            && (nx.SSwitch? <==> pc.SState?) && (nx.SOff? <==> pc.SSwitch?)
            && (pc.RClear? ==> WillWake(nx, q))
            && (WillWake(pc, q) ==> WillWake(nx, q) || (pc == RWake(q)))
            && (WillWake(pc, q) ==> HoldsLk(pc) && !DropsLk(pc))
  {
  }

  /** A process at slot q waiting, with its releaser about to look at q, is off the CPU. */
  lemma StepSleep(s: State, p: nat, r: State, q: nat)
    requires Inv(s) && Enabled(s, Step(p)) && r == StepOf(s, p) && q < |s.pcs|
    ensures SleepOk(r, q)
  {
    assert LocksOk(s, p) && LocksOk(s, q) && FieldsOk(s, p) && SleepOk(s, p) && SleepOk(s, q);
    FollowSleep(s.pcs[p], s.locked, |s.pcs|, q);
    FollowLocks(s.pcs[p], s.locked, |s.pcs|);
    DropsHeld(s.pcs[p]);
    if Pending(s, q) {
      assert LocksOk(s, s.lk.value);
    }
  }

  // ---- the other events, and runs ----

  lemma CallKeepsInv(s: State, e: Event, r: State)
    requires Inv(s) && Enabled(s, e) && !e.Step? && r == Next(s, e)
    ensures Inv(r)
  {
    forall q | 0 <= q < |s.pcs|
      ensures LocksOk(r, q) && FieldsOk(r, q) && SleepOk(r, q)
    {
      CallSeen(s, e, r, q);
    }
  }

  lemma CallSeen(s: State, e: Event, r: State, q: nat)
    requires Inv(s) && Enabled(s, e) && !e.Step? && r == Next(s, e) && q < |s.pcs|
    ensures LocksOk(r, q) && FieldsOk(r, q) && SleepOk(r, q)
  {
    assert LocksOk(s, e.p) && LocksOk(s, q) && FieldsOk(s, q) && SleepOk(s, q) && FieldsOk(s, e.p) && SleepOk(s, e.p);
  }

  lemma StepKeepsInv(s: State, e: Event)
    requires Inv(s) && Enabled(s, e)
    ensures Inv(Next(s, e))
  {
    var r := Next(s, e);
    if e.Step? {
      assert LocksOk(s, e.p);
      DropsHeld(s.pcs[e.p]);
      forall q | 0 <= q < |s.pcs|
        ensures LocksOk(r, q) && FieldsOk(r, q) && SleepOk(r, q)
      {
        StepLocks(s, e.p, r, q);
        StepFields(s, e.p, r, q);
        StepSleep(s, e.p, r, q);
      }
    } else {
      CallKeepsInv(s, e, r);
    }
  }

  lemma {:induction false} RunKeepsInv(s: State, es: seq<Event>)
    requires Inv(s) && Exec(s, es).Some?
    ensures Inv(Exec(s, es).value)
    decreases |es|
  {
    if es != [] {
      StepKeepsInv(s, es[0]);
      RunKeepsInv(Next(s, es[0]), es[1..]);
    }
  }

  lemma BootInv(n: nat)
    ensures Inv(Boot(n))
  {
    forall p | 0 <= p < n
      ensures LocksOk(Boot(n), p) && FieldsOk(Boot(n), p) && SleepOk(Boot(n), p)
    {
    }
  }

  // ---- the theorems ----

  /** After any run of any number of processes, at most one holds the sleeplock, and
      holdingsleep answers for exactly that one whenever the inner spinlock is free. */
  lemma MutualExclusion(n: nat, es: seq<Event>, s: State, p: nat, q: nat)
    requires Exec(Boot(n), es) == Some(s) && p < |s.pcs| && q < |s.pcs|
    ensures Holds(s.pcs[p]) && Holds(s.pcs[q]) ==> p == q
    ensures s.lk.None? ==> (s.locked && s.pid == p + 1 <==> Holds(s.pcs[p]))
  {
    BootInv(n);
    RunKeepsInv(Boot(n), es);
    assert LocksOk(s, p) && LocksOk(s, q) && FieldsOk(s, p);
    if s.locked && s.lk.None? {
      assert LocksOk(s, s.owner.value) && FieldsOk(s, s.owner.value);
    }
  }

  /** After any run, a process asleep on an unlocked sleeplock has a releaser that
      holds the inner spinlock and has yet to look at its slot: none sleeps on an
      unlocked sleeplock whose spinlock is free. */
  lemma NoLostWakeup(n: nat, es: seq<Event>, s: State, p: nat)
    requires Exec(Boot(n), es) == Some(s) && Shape(s) && p < |s.pcs| && s.st[p].Sleeping?
    ensures s.locked || (s.lk.Some? && s.lk.value < |s.pcs| && WillWake(s.pcs[s.lk.value], p))
    ensures s.lk.None? ==> s.locked
  {
    BootInv(n);
    RunKeepsInv(Boot(n), es);
    assert SleepOk(s, p);
  }

  /** Something p is in the middle of: not idle, and not asleep on a locked sleeplock. */
  ghost predicate Busy(s: State, p: nat) {
    Shape(s) && p < |s.pcs| && !s.pcs[p].Idle? && !(s.pcs[p].SOff? && s.st[p].Sleeping? && s.locked)
  }

  /** After any run, as long as some process is busy some process can go on: the
      two spinlocks and the sleeplock never deadlock one another. */
  lemma NeverStuck(n: nat, es: seq<Event>, s: State, p: nat) returns (e: Event)
    requires Exec(Boot(n), es) == Some(s) && Busy(s, p)
    ensures Enabled(s, e) && (e.Step? || e.Dispatch?)
  {
    BootInv(n);
    RunKeepsInv(Boot(n), es);
    assert LocksOk(s, p) && SleepOk(s, p);
    if s.pt.Some? {
      assert LocksOk(s, s.pt.value);
      e := Step(s.pt.value);
    } else if s.lk.Some? {
      assert LocksOk(s, s.lk.value);
      e := Step(s.lk.value);
    } else if s.pcs[p].SOff? {
      e := Dispatch(p);
    } else {
      e := Step(p);
    }
  }
}
