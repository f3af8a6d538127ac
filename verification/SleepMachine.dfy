/** acquiresleep, releasesleep, sleep, wakeup and kill for one sleeplock and any number
    of processes, one lock operation or memory access at a time. */
module SleepMachine {
  import opened Basics

  /** p->state, as far as a live process goes. */
  datatype PState = Running | Runnable | Sleeping

  /** Where a process is. Idle(has) is outside these functions, holding the sleeplock
      or not; the other constructors name the next thing the process does. */
  datatype Pc =
    | Idle(has: bool)
    // acquiresleep
    | AAcquire          // acquire(&lk->lk)
    | ATest             // while (lk->locked)
    | ASetLocked        // lk->locked = 1
    | ASetPid           // lk->pid = myproc()->pid
    | ARelease          // release(&lk->lk)
    // sleep(lk, &lk->lk), called from acquiresleep
    | SAcquire          // acquire(&ptable.lock)
    | SRelease          // release(lk)
    | SChan             // p->chan = chan
    | SState            // p->state = SLEEPING
    | SSwitch           // sched(): the scheduler's context releases ptable.lock
    | SOff              // switched out
    | STidy             // p->chan = 0, holding ptable.lock from the scheduler
    | SReleasePt        // release(&ptable.lock)
    | SReacquire        // acquire(lk)
    // releasesleep, with wakeup inlined
    | RAcquire | RClear | RPid | RAcquirePt | RWake(slot: nat) | RReleasePt | RRelease
    // kill(t), holding ptable.lock while it touches slot t
    | KAcquire(has: bool, t: nat) | KWake(has: bool, t: nat) | KRelease(has: bool)

  /** lk and pt: the holders of the sleeplock's inner spinlock and of ptable.lock.
      locked and pid: the sleeplock's fields; pid is 0 or 1 + the holder's slot.
      owner: the process that set locked last, until it clears it (no field of the C).
      st[p], chan[p]: p->state, and whether p->chan is this sleeplock. */
  datatype State = State(lk: Option<nat>, pt: Option<nat>, locked: bool, pid: nat, owner: Option<nat>,
                         pcs: seq<Pc>, st: seq<PState>, chan: seq<bool>)

  datatype Event =
    | CallAcquire(p: nat) | CallRelease(p: nat) | CallKill(p: nat, t: nat)
    | Step(p: nat)
    | Dispatch(p: nat)  // the scheduler picks p

  ghost predicate Shape(s: State) { |s.pcs| == |s.st| == |s.chan| }

  function Boot(n: nat): State {
    State(None, None, false, 0, None, seq(n, i => Idle(false)), seq(n, i => Running), seq(n, i => false))
  }

  // ---- what each step does, variable by variable ----

  predicate TakesLk(pc: Pc) { pc.AAcquire? || pc.SReacquire? || pc.RAcquire? }
  predicate DropsLk(pc: Pc) { pc.ARelease? || pc.SRelease? || pc.RRelease? }
  predicate TakesPt(pc: Pc) { pc.SAcquire? || pc.RAcquirePt? || pc.KAcquire? }
  predicate DropsPt(pc: Pc) { pc.SSwitch? || pc.SReleasePt? || pc.RReleasePt? || pc.KRelease? }

  function Lock(held: Option<nat>, takes: bool, drops: bool, p: nat): Option<nat> {
    if takes then Some(p) else if drops then None else held
  }

  /** Control flow: where a process at pc goes, given lk->locked and NPROC. */
  function Follow(pc: Pc, locked: bool, n: nat): Pc {
    match pc
    case AAcquire => ATest
    case ATest => if locked then SAcquire else ASetLocked
    case ASetLocked => ASetPid
    case ASetPid => ARelease
    case ARelease => Idle(true)
    case SAcquire => SRelease
    case SRelease => SChan
    case SChan => SState
    case SState => SSwitch
    case SSwitch => SOff
    case STidy => SReleasePt
    case SReleasePt => SReacquire
    case SReacquire => ATest
    case RAcquire => RClear
    case RClear => RPid
    case RPid => RAcquirePt
    case RAcquirePt => RWake(0)
    case RWake(i) => if i < n then RWake(i + 1) else RReleasePt
    case RReleasePt => RRelease
    case RRelease => Idle(false)
    case KAcquire(h, t) => KWake(h, t)
    case KWake(h, t) => KRelease(h)
    case KRelease(h) => Idle(h)
    case Idle(_) => pc
    case SOff => pc
  }

  /** wakeup1 for one slot, and kill for one slot. */
  function NewSt(s: State, p: nat): (r: seq<PState>)
    requires Shape(s) && p < |s.pcs|
    ensures |r| == |s.st|
  {
    match s.pcs[p]
    case SState => s.st[p := Sleeping]
    case RWake(i) => if i < |s.st| && s.st[i].Sleeping? && s.chan[i] then s.st[i := Runnable] else s.st
    case KWake(_, t) => if t < |s.st| && s.st[t].Sleeping? then s.st[t := Runnable] else s.st
    case _ => s.st
  }

  function NewChan(s: State, p: nat): (r: seq<bool>)
    requires Shape(s) && p < |s.pcs|
    ensures |r| == |s.chan|
  {
    if s.pcs[p].SChan? then s.chan[p := true] else if s.pcs[p].STidy? then s.chan[p := false] else s.chan
  }

  /** acquiresleep is called by processes that do not hold the lock, releasesleep by
      the one that does. */
  ghost predicate Enabled(s: State, e: Event) {
    Shape(s) && e.p < |s.pcs| &&
    match e
    case CallAcquire(p) => s.pcs[p] == Idle(false)
    case CallRelease(p) => s.pcs[p] == Idle(true)
    case CallKill(p, t) => s.pcs[p].Idle? && t < |s.pcs|
    case Dispatch(p) => s.pcs[p].SOff? && s.st[p].Runnable? && s.pt.None?
    case Step(p) =>
      && !s.pcs[p].Idle? && !s.pcs[p].SOff?
      && (TakesLk(s.pcs[p]) ==> s.lk.None?) && (TakesPt(s.pcs[p]) ==> s.pt.None?)
  }

  function Goto(s: State, p: nat, pc: Pc): State
    requires p < |s.pcs|
  {
    s.(pcs := s.pcs[p := pc])
  }

  /** What p does next. */
  ghost function StepOf(s: State, p: nat): (r: State)
    requires Enabled(s, Step(p))
    ensures Shape(r) && |r.pcs| == |s.pcs|
  {
    var pc := s.pcs[p];
    State(Lock(s.lk, TakesLk(pc), DropsLk(pc), p),
          Lock(s.pt, TakesPt(pc), DropsPt(pc), p),
          if pc.ASetLocked? then true else if pc.RClear? then false else s.locked,
          if pc.ASetPid? then p + 1 else if pc.RPid? then 0 else s.pid,
          if pc.ASetLocked? then Some(p) else if pc.RClear? then None else s.owner,
          s.pcs[p := Follow(pc, s.locked, |s.pcs|)],
          NewSt(s, p),
          NewChan(s, p))
  }

  ghost function Next(s: State, e: Event): (r: State)
    requires Enabled(s, e)
    ensures Shape(r) && |r.pcs| == |s.pcs|
  {
    match e
    case CallAcquire(p) => Goto(s, p, AAcquire)
    case CallRelease(p) => Goto(s, p, RAcquire)
    case CallKill(p, t) => Goto(s, p, KAcquire(s.pcs[p].has, t))
    case Dispatch(p) => Goto(s, p, STidy).(pt := Some(p), st := s.st[p := Running])
    case Step(p) => StepOf(s, p)
  }

  ghost function Exec(s: State, es: seq<Event>): Option<State>
    decreases |es|
  {
    if es == [] then Some(s)
    else if !Enabled(s, es[0]) then None
    else Exec(Next(s, es[0]), es[1..])
  }
}
