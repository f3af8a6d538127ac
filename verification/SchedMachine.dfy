/** The container scheduler on any number of CPUs: each runs scheduler() or, through
    swtch, the process it picked, under the one ptable.lock. */
module SchedMachine {
  import opened Basics

  datatype PState = Unused | Embryo | Sleeping | Runnable | Running | Zombie
  datatype CState = CRunning | CWaiting | CUnused

  /** What a CPU does next. */
  datatype Pc =
    | Pick      // look at container con: skip it, or begin its turn
    | Acquire   // acquire(&ptable.lock)
    | Scan      // look at slot `slot`, holding the lock
    | Mark      // c->proc is set; p->state = RUNNING
    | Switch    // the process is on the CPU, still holding the scheduler's lock
    | User      // it has released the lock
    | Clear     // it has called sched; c->proc = 0

  /** log: the slots this CPU has dispatched in its current pass over ctable. */
  datatype Cpu = Cpu(proc: Option<nat>, pc: Pc, con: nat, slot: nat, log: seq<nat>)

  /** lock: the CPU whose thread holds ptable.lock. st, cid: state and containerID of
      each process. cons: state of each container, container k having containerID k.
      on: the CPU a process runs on (no field of the C). */
  datatype State = State(lock: Option<nat>, cpus: seq<Cpu>, st: seq<PState>, cid: seq<int>, cons: seq<CState>,
                         on: seq<Option<nat>>)

  datatype Event =
    | Step(c: nat)                  // CPU c goes on in scheduler() or comes out of swtch
    | Sched(c: nat, x: PState)      // the process on c takes the lock, leaves RUNNING for x, calls sched
    | Change(q: nat, x: PState)     // a locked section elsewhere changes a process not RUNNING
    | Move(q: nat, id: int)         // a process joins or leaves a container
    | SetCon(k: nat, y: CState)

  ghost predicate Shape(s: State) {
    && |s.cid| == |s.st| == |s.on|
    && (forall c {:trigger s.cpus[c]} | 0 <= c < |s.cpus| ::
          s.cpus[c].proc.Some? ==> s.cpus[c].proc.value < |s.st|)
  }

  ghost predicate Enabled(s: State, e: Event) {
    Shape(s) &&
    match e
    case Step(c) => c < |s.cpus| && !s.cpus[c].pc.User? && (s.cpus[c].pc.Acquire? ==> s.lock.None?)
                    && (s.cpus[c].pc.Mark? ==> s.cpus[c].proc.Some?)
    case Sched(c, x) => c < |s.cpus| && s.cpus[c].pc.User? && s.cpus[c].proc.Some? && s.lock.None? && !x.Running?
    case Change(q, x) => q < |s.st| && s.lock.None? && !s.st[q].Running? && !x.Running?
    case Move(q, id) => q < |s.st| && s.lock.None?
    case SetCon(k, y) => k < |s.cons|
  }

  /** Slot u.slot is a process this turn may dispatch. */
  predicate Hit(s: State, u: Cpu)
    requires |s.cid| == |s.st|
  {
    u.slot < |s.st| && s.cid[u.slot] == u.con && s.st[u.slot].Runnable?
  }

  /** The CPU after its step. */
  function StepCpu(s: State, u: Cpu): Cpu
    requires |s.cid| == |s.st|
  {
    match u.pc
    case Pick =>
      if u.con >= |s.cons| then u.(con := 0, log := [])
      else if s.cons[u.con] != CWaiting then u.(con := u.con + 1)
      else u.(pc := Acquire)
    case Acquire => u.(pc := Scan, slot := 0)
    case Scan =>
      if u.slot >= |s.st| then u.(pc := Pick, con := u.con + 1)
      else if Hit(s, u) then u.(proc := Some(u.slot), pc := Mark)
      else u.(slot := u.slot + 1)
    case Mark => u.(pc := Switch, log := u.log + [u.slot])
    case Switch => u.(pc := User)
    case User => u
    case Clear => u.(proc := None, pc := Scan, slot := u.slot + 1)
  }

  function StepLock(s: State, c: nat, u: Cpu): Option<nat> {
    if u.pc.Acquire? then Some(c)
    else if u.pc.Switch? || (u.pc.Scan? && u.slot >= |s.st|) then None
    else s.lock
  }

  ghost function Next(s: State, e: Event): (r: State)
    requires Enabled(s, e)
  {
    match e
    case Step(c) =>
      var u := s.cpus[c];
      s.(lock := StepLock(s, c, u), cpus := s.cpus[c := StepCpu(s, u)],
         st := if u.pc.Mark? then s.st[u.proc.value := Running] else s.st,
         on := if u.pc.Mark? then s.on[u.proc.value := Some(c)] else s.on)
    case Sched(c, x) =>
      var u := s.cpus[c];
      s.(lock := Some(c), cpus := s.cpus[c := u.(pc := Clear)],
         st := s.st[u.proc.value := x], on := s.on[u.proc.value := None])
    case Change(q, x) => s.(st := s.st[q := x])
    case Move(q, id) => s.(cid := s.cid[q := id])
    case SetCon(k, y) => s.(cons := s.cons[k := y])
  }

  ghost function Exec(s: State, es: seq<Event>): Option<State>
    decreases |es|
  {
    if es == [] then Some(s)
    else if !Enabled(s, es[0]) then None
    else Exec(Next(s, es[0]), es[1..])
  }

  /** containerInit, and no CPU in scheduler's inner loop yet. */
  ghost predicate Boot(s: State) {
    && Shape(s) && s.lock.None?
    && (forall c {:trigger s.cpus[c]} | 0 <= c < |s.cpus| :: s.cpus[c] == Cpu(None, Pick, 0, 0, []))
    && (forall q {:trigger s.st[q]} | 0 <= q < |s.st| :: !s.st[q].Running?)
    && (forall q {:trigger s.on[q]} | 0 <= q < |s.st| :: s.on[q].None?)
  }

  // ---- who runs where ----

  predicate HoldsLock(pc: Pc) { pc.Scan? || pc.Mark? || pc.Switch? || pc.Clear? }
  predicate HasProc(pc: Pc) { pc.Mark? || pc.Switch? || pc.User? || pc.Clear? }
  predicate OnCpu(pc: Pc) { pc.Switch? || pc.User? }

  ghost predicate CpuOk(s: State, c: int)
    requires Shape(s) && 0 <= c < |s.cpus|
  {
    var u := s.cpus[c];
    && (HoldsLock(u.pc) <==> s.lock == Some(c))
    && (HasProc(u.pc) <==> u.proc.Some?)
    && (HasProc(u.pc) ==> u.proc == Some(u.slot) && u.slot < |s.st|)
    && (u.pc.Mark? ==> s.st[u.slot].Runnable?)
    && (OnCpu(u.pc) ==> s.on[u.slot] == Some(c))
  }

  ghost predicate ProcOk(s: State, q: int)
    requires Shape(s) && 0 <= q < |s.st|
  {
    && (s.st[q].Running? <==> s.on[q].Some?)
    && (s.on[q].Some? ==> s.on[q].value < |s.cpus| && OnCpu(s.cpus[s.on[q].value].pc) && s.cpus[s.on[q].value].slot == q)
  }

  ghost predicate Inv(s: State) {
    && Shape(s)
    && (forall c {:trigger CpuOk(s, c)} | 0 <= c < |s.cpus| :: CpuOk(s, c))
    && (forall q {:trigger ProcOk(s, q)} | 0 <= q < |s.st| :: ProcOk(s, q))
  }

  lemma StepShape(s: State, e: Event)
    requires Inv(s) && Enabled(s, e)
    ensures Shape(Next(s, e)) && |Next(s, e).cpus| == |s.cpus| && |Next(s, e).st| == |s.st|
  {
    var r := Next(s, e);
    forall c {:trigger r.cpus[c]} | 0 <= c < |r.cpus| && r.cpus[c].proc.Some?
      ensures r.cpus[c].proc.value < |r.st|
    {
      assert CpuOk(s, c);
    }
  }

  lemma StepCpuOk(s: State, e: Event, r: State, c: nat)
    requires Inv(s) && Enabled(s, e) && r == Next(s, e) && Shape(r) && c < |s.cpus|
    ensures CpuOk(r, c)
  {
    assert CpuOk(s, c);
    if e.Step? || e.Sched? {
      assert CpuOk(s, e.c);
      if s.cpus[e.c].proc.Some? {
        assert ProcOk(s, s.cpus[e.c].slot);
      }
    }
    if HasProc(s.cpus[c].pc) {
      assert ProcOk(s, s.cpus[c].slot);
    }
  }

  lemma StepProcOk(s: State, e: Event, r: State, q: nat)
    requires Inv(s) && Enabled(s, e) && r == Next(s, e) && Shape(r) && q < |s.st|
    ensures ProcOk(r, q)
  {
    assert ProcOk(s, q);
    if e.Step? || e.Sched? {
      assert CpuOk(s, e.c);
    }
  }

  lemma StepKeepsInv(s: State, e: Event)
    requires Inv(s) && Enabled(s, e)
    ensures Inv(Next(s, e))
  {
    var r := Next(s, e);
    StepShape(s, e);
    forall c | 0 <= c < |r.cpus|
      ensures CpuOk(r, c)
    {
      StepCpuOk(s, e, r, c);
    }
    forall q | 0 <= q < |r.st|
      ensures ProcOk(r, q)
    {
      StepProcOk(s, e, r, q);
    }
  }

  lemma {:induction false} RunKeepsInv(s: State, es: seq<Event>)
    requires Inv(s) && Exec(s, es).Some?
    ensures Inv(Exec(s, es).value)
    decreases |es|
  {
    if es != [] {
      StepKeepsInv(s, es[0]);
      RunKeepsInv(Next(s, es[0]), es[1..]);
    }
  }

  lemma BootInv(s: State)
    requires Boot(s)
    ensures Inv(s)
  {
    forall c | 0 <= c < |s.cpus|
      ensures CpuOk(s, c)
    {
    }
    forall q | 0 <= q < |s.st|
      ensures ProcOk(s, q)
    {
    }
  }

  /** After any run, with ptable.lock free, a process is RUNNING exactly when one CPU's
      proc points to it, and no two do. */
  lemma RunningOnOneCpu(boot: State, es: seq<Event>, s: State, q: nat)
    requires Boot(boot) && Exec(boot, es) == Some(s) && s.lock.None? && Shape(s) && q < |s.st|
    ensures s.st[q].Running? <==> exists c :: 0 <= c < |s.cpus| && s.cpus[c].proc == Some(q)
    ensures forall c, d | 0 <= c < |s.cpus| && 0 <= d < |s.cpus| && s.cpus[c].proc == s.cpus[d].proc == Some(q) :: c == d
  {
    BootInv(boot);
    RunKeepsInv(boot, es);
    assert ProcOk(s, q);
    if s.st[q].Running? {
      assert CpuOk(s, s.on[q].value);
    }
    forall c | 0 <= c < |s.cpus| && s.cpus[c].proc == Some(q)
      ensures s.on[q] == Some(c)
    {
      assert CpuOk(s, c);
    }
  }
}
