/** The process table: fork, exit, wait and kill by any number of processes. A section
    under ptable.lock is one step; what fork and allocproc write without the lock is a
    step of its own. */
module ProcMachine {
  import opened Basics

  /** InWait is SLEEPING on the process's own address, as wait does; Asleep is
      SLEEPING on any other channel. */
  datatype PState = Unused | Embryo | Asleep | InWait | Runnable | Running | Zombie

  /** st, pid, par, killed: the fields of each slot. fork: the slot a process inside
      fork is filling; maker: the process filling a slot. init: initproc's slot. */
  datatype State = State(st: seq<PState>, pid: seq<nat>, par: seq<Option<nat>>, killed: seq<bool>,
                         fork: seq<Option<nat>>, maker: seq<Option<nat>>, nextpid: nat, init: nat)

  datatype Event =
    | Alloc(p: nat, np: nat)    // allocproc finds slot np
    | AllocFail(p: nat)         // kalloc or copyuvm fails: np->state = UNUSED
    | SetParent(p: nat)         // np->parent = curproc
    | ForkDone(p: nat)          // np->state = RUNNABLE
    | Exit(p: nat)
    | Reap(p: nat, c: nat)      // wait finds the ZOMBIE child c
    | WaitSleep(p: nat)         // wait sleeps
    | Sleep(p: nat) | Wake(q: nat)
    | Kill(p: nat, t: nat)
    | Dispatch(q: nat) | Yield(p: nat)

  ghost predicate Shape(s: State) {
    |s.st| == |s.pid| == |s.par| == |s.killed| == |s.fork| == |s.maker| && s.init < |s.st|
  }

  predicate Runs(s: State, p: nat) { p < |s.st| && s.st[p].Running? }

  ghost predicate Child(s: State, p: nat, c: int)
    requires |s.par| == |s.st|
  {
    0 <= c < |s.st| && s.par[c] == Some(p)
  }

  ghost predicate Enabled(s: State, e: Event) {
    Shape(s) &&
    match e
    case Alloc(p, np) => Runs(s, p) && s.fork[p].None? && np < |s.st| && s.st[np].Unused?
                         && forall q | 0 <= q < np :: !s.st[q].Unused?
    case AllocFail(p) => Runs(s, p) && s.fork[p].Some? && s.fork[p].value < |s.st| && s.par[s.fork[p].value].None?
    case SetParent(p) => Runs(s, p) && s.fork[p].Some? && s.fork[p].value < |s.st| && s.par[s.fork[p].value].None?
    case ForkDone(p) => Runs(s, p) && s.fork[p].Some? && s.fork[p].value < |s.st| && s.par[s.fork[p].value].Some?
    case Exit(p) => Runs(s, p) && s.fork[p].None? && p != s.init
    case Reap(p, c) => Runs(s, p) && s.fork[p].None? && Child(s, p, c) && s.st[c].Zombie?
                       && forall q | 0 <= q < c :: !(Child(s, p, q) && s.st[q].Zombie?)
    case WaitSleep(p) => Runs(s, p) && s.fork[p].None? && !s.killed[p] && (exists c :: Child(s, p, c))
                         && forall c | Child(s, p, c) :: !s.st[c].Zombie?
    case Sleep(p) => Runs(s, p)
    case Wake(q) => q < |s.st| && s.st[q].Asleep?
    case Kill(p, t) => Runs(s, p) && t < |s.st| && forall q | 0 <= q < t :: s.pid[q] != s.pid[t]
    case Dispatch(q) => q < |s.st| && s.st[q].Runnable?
    case Yield(p) => Runs(s, p)
  }

  function Woken(x: PState): PState { if x.InWait? then Runnable else x }

  /** exit's effect on state q: the parent is woken, init too if it inherits a ZOMBIE,
      and p itself becomes one. */
  function ExitState(s: State, p: nat, q: nat): PState
    requires |s.st| == |s.par| && p < |s.st| && q < |s.st|
  {
    if q == p then Zombie
    else if s.par[p] == Some(q) then Woken(s.st[q])
    else if q == s.init && (exists c :: 0 <= c < |s.st| && s.par[c] == Some(p) && s.st[c].Zombie?) then Woken(s.st[q])
    else s.st[q]
  }

  function ExitStates(s: State, p: nat): (r: seq<PState>)
    requires |s.st| == |s.par| && p < |s.st|
    ensures |r| == |s.st| && forall q | 0 <= q < |s.st| :: r[q] == ExitState(s, p, q)
  {
    seq(|s.st|, q requires 0 <= q < |s.st| => ExitState(s, p, q))
  }

  function ExitParents(s: State, p: nat): (r: seq<Option<nat>>)
    requires |s.par| == |s.st|
    ensures |r| == |s.par|
    ensures forall q | 0 <= q < |s.par| :: r[q] == if s.par[q] == Some(p) then Some(s.init) else s.par[q]
  {
    seq(|s.par|, q requires 0 <= q < |s.par| => if s.par[q] == Some(p) then Some(s.init) else s.par[q])
  }

  /** kill wakes its target from any sleep. */
  function Roused(x: PState): PState { if x.InWait? || x.Asleep? then Runnable else x }

  ghost function Next(s: State, e: Event): (r: State)
    requires Enabled(s, e)
  {
    match e
    case Alloc(p, np) =>
      s.(st := s.st[np := Embryo], pid := s.pid[np := s.nextpid], nextpid := s.nextpid + 1,
         fork := s.fork[p := Some(np)], maker := s.maker[np := Some(p)])
    case AllocFail(p) =>
      var np := s.fork[p].value;
      s.(st := s.st[np := Unused], fork := s.fork[p := None], maker := s.maker[np := None])
    case SetParent(p) => s.(par := s.par[s.fork[p].value := Some(p)])
    case ForkDone(p) =>
      var np := s.fork[p].value;
      s.(st := s.st[np := Runnable], fork := s.fork[p := None], maker := s.maker[np := None])
    case Exit(p) => s.(st := ExitStates(s, p), par := ExitParents(s, p))
    case Reap(p, c) =>
      s.(st := s.st[c := Unused], pid := s.pid[c := 0], par := s.par[c := None], killed := s.killed[c := false])
    case WaitSleep(p) => s.(st := s.st[p := InWait])
    case Sleep(p) => s.(st := s.st[p := Asleep])
    case Wake(q) => s.(st := s.st[q := Runnable])
    case Kill(p, t) => s.(killed := s.killed[t := true], st := s.st[t := Roused(s.st[t])])
    case Dispatch(q) => s.(st := s.st[q := Running])
    case Yield(p) => s.(st := s.st[p := Runnable])
  }

  ghost function Exec(s: State, es: seq<Event>): Option<State>
    decreases |es|
  {
    if es == [] then Some(s)
    else if !Enabled(s, es[0]) then None
    else Exec(Next(s, es[0]), es[1..])
  }

  /** After userinit: one process, in slot 0, with pid 1. */
  ghost predicate Boot(s: State) {
    && Shape(s) && s.init == 0 && s.nextpid == 2 && s.st[0].Runnable? && s.pid[0] == 1
    && (forall q {:trigger s.st[q]} | 0 < q < |s.st| :: s.st[q].Unused?)
    && (forall q {:trigger s.pid[q]} | 0 < q < |s.st| :: s.pid[q] == 0)
    && (forall q {:trigger s.par[q]} | 0 <= q < |s.st| :: s.par[q].None?)
    && (forall q {:trigger s.fork[q]} | 0 <= q < |s.st| :: s.fork[q].None?)
    && (forall q {:trigger s.maker[q]} | 0 <= q < |s.st| :: s.maker[q].None?)
  }

  // ---- invariants, slot by slot ----

  /** A process that has a life of its own: not free, not being filled, not dead. */
  predicate Live(x: PState) { !x.Unused? && !x.Embryo? && !x.Zombie? }

  /** Parents are alive, and all but init and free or unfinished slots have one. */
  ghost predicate ParentOk(s: State, q: int)
    requires Shape(s) && 0 <= q < |s.st|
  {
    && (s.par[q].Some? ==> s.par[q].value < |s.st| && Live(s.st[s.par[q].value]) && s.par[q].value != q && q != s.init)
    && (s.st[q].Unused? ==> s.par[q].None?)
    && (!s.st[q].Unused? && !s.st[q].Embryo? && q != s.init ==> s.par[q].Some?)
  }

  /** fork and maker are inverse; a slot is EMBRYO just while somebody fills it. */
  ghost predicate ForkOk(s: State, q: int)
    requires Shape(s) && 0 <= q < |s.st|
  {
    && (s.fork[q].Some? ==> s.fork[q].value < |s.st| && s.maker[s.fork[q].value] == Some(q) && Live(s.st[q])
                            && !s.st[q].InWait?)
    && (s.maker[q].Some? ==> s.maker[q].value < |s.st| && s.fork[s.maker[q].value] == Some(q)
                             && (s.par[q].Some? ==> s.par[q] == s.maker[q]))
    && (s.st[q].Embryo? <==> s.maker[q].Some?)
  }

  ghost predicate PidOk(s: State, q: int)
    requires Shape(s) && 0 <= q < |s.st|
  {
    s.pid[q] < s.nextpid && (!s.st[q].Unused? ==> s.pid[q] != 0)
  }

  ghost predicate PidsApart(s: State, q: int, r: int)
    requires Shape(s) && 0 <= q < |s.st| && 0 <= r < |s.st|
  {
    s.pid[q] != 0 && s.pid[q] == s.pid[r] ==> q == r
  }

  ghost predicate TreeInv(s: State) {
    && Shape(s) && Live(s.st[s.init]) && s.nextpid > 0
    && (forall q {:trigger ParentOk(s, q)} | 0 <= q < |s.st| :: ParentOk(s, q))
    && (forall q {:trigger ForkOk(s, q)} | 0 <= q < |s.st| :: ForkOk(s, q))
  }

  ghost predicate PidInv(s: State) {
    && Shape(s) && s.nextpid > 0
    && (forall q {:trigger PidOk(s, q)} | 0 <= q < |s.st| :: PidOk(s, q))
    && (forall q, r {:trigger PidsApart(s, q, r)} | 0 <= q < |s.st| && 0 <= r < |s.st| :: PidsApart(s, q, r))
  }

  /** A process asleep in wait has a child, and none that is a ZOMBIE. */
  ghost predicate HasKid(s: State, p: int)
    requires Shape(s)
  {
    exists c :: 0 <= c < |s.st| && s.par[c] == Some(p)
  }

  ghost predicate WaitInv(s: State) {
    && Shape(s)
    && (forall p {:trigger HasKid(s, p)} | 0 <= p < |s.st| && s.st[p].InWait? :: HasKid(s, p))
    && (forall c {:trigger s.par[c]} | 0 <= c < |s.st| && s.st[c].Zombie? && s.par[c].Some? && s.par[c].value < |s.st| ::
          !s.st[s.par[c].value].InWait?)
  }
}
