/** What holds of the process table whenever ptable.lock is free. */
module ProcProofs {
  import opened Basics
  import opened ProcMachine

  // ---- the tree ----

  /** What an event other than Exit does to states: at most one slot changes, and a
      live process stays alive. */
  lemma StepStates(s: State, e: Event, r: State, q: nat)
    requires Shape(s) && Enabled(s, e) && !e.Exit? && r == Next(s, e) && q < |s.st|
    requires e.AllocFail? || e.ForkDone? ==> s.st[s.fork[e.p].value].Embryo?
    ensures |r.st| == |s.st| && (Live(s.st[q]) ==> Live(r.st[q]))
    ensures r.st[q] != s.st[q] && !Live(s.st[q]) ==>
              || e == Alloc(e.p, q) || (e.AllocFail? && s.fork[e.p] == Some(q)) || (e.ForkDone? && s.fork[e.p] == Some(q))
              || (e.Reap? && e.c == q)
  {
  }

  lemma StepParent(s: State, e: Event, r: State, q: nat)
    requires TreeInv(s) && Enabled(s, e) && !e.Exit? && r == Next(s, e) && q < |s.st|
    ensures ParentOk(r, q)
  {
    assert ParentOk(s, q) && ForkOk(s, q);
    if e.AllocFail? || e.SetParent? || e.ForkDone? {
      assert ForkOk(s, e.p) && ForkOk(s, s.fork[e.p].value) && ParentOk(s, s.fork[e.p].value);
    }
    if r.par[q].Some? {
      StepStates(s, e, r, r.par[q].value);
    }
    StepStates(s, e, r, q);
  }

  lemma ExitParent(s: State, p: nat, r: State, q: nat)
    requires TreeInv(s) && Enabled(s, Exit(p)) && r == Next(s, Exit(p)) && q < |s.st|
    ensures ParentOk(r, q)
  {
    assert ParentOk(s, q) && ParentOk(s, p);
  }

  lemma StepFork(s: State, e: Event, r: State, q: nat)
    requires TreeInv(s) && Enabled(s, e) && !e.Exit? && r == Next(s, e) && q < |s.st|
    ensures ForkOk(r, q)
  {
    assert ForkOk(s, q) && ParentOk(s, q);
    if e.AllocFail? || e.SetParent? || e.ForkDone? {
      assert ForkOk(s, e.p) && ForkOk(s, s.fork[e.p].value);
    }
    if e.Alloc? {
      assert ForkOk(s, e.np) && ParentOk(s, e.np) && ForkOk(s, e.p);
    }
    if e.Reap? {
      assert ForkOk(s, e.c);
    }
  }

  lemma ExitFork(s: State, p: nat, r: State, q: nat)
    requires TreeInv(s) && Enabled(s, Exit(p)) && r == Next(s, Exit(p)) && q < |s.st|
    ensures ForkOk(r, q)
  {
    assert ForkOk(s, q) && ParentOk(s, q) && ForkOk(s, p);
    if s.maker[q].Some? {
      assert ForkOk(s, s.maker[q].value);
    }
  }

  lemma StepKeepsTree(s: State, e: Event)
    requires TreeInv(s) && Enabled(s, e)
    ensures TreeInv(Next(s, e))
  {
    var r := Next(s, e);
    if e.AllocFail? || e.ForkDone? {
      assert ForkOk(s, e.p) && ForkOk(s, s.fork[e.p].value);
    }
    if !e.Exit? {
      StepStates(s, e, r, s.init);
    }
    forall q | 0 <= q < |s.st|
      ensures ParentOk(r, q) && ForkOk(r, q)
    {
      if e.Exit? {
        ExitParent(s, e.p, r, q);
        ExitFork(s, e.p, r, q);
      } else {
        StepParent(s, e, r, q);
        StepFork(s, e, r, q);
      }
    }
  }

  // ---- pids ----

  lemma StepKeepsPids(s: State, e: Event)
    requires PidInv(s) && TreeInv(s) && Enabled(s, e)
    ensures PidInv(Next(s, e))
  {
    var t := Next(s, e);
    if e.AllocFail? || e.ForkDone? {
      assert ForkOk(s, e.p) && ForkOk(s, s.fork[e.p].value);
    }
    forall q | 0 <= q < |s.st|
      ensures PidOk(t, q)
    {
      assert PidOk(s, q);
    }
    forall q, r | 0 <= q < |s.st| && 0 <= r < |s.st|
      ensures PidsApart(t, q, r)
    {
      assert PidsApart(s, q, r) && PidOk(s, q) && PidOk(s, r);
    }
  }

  // ---- wait ----

  lemma StepKeepsKid(s: State, e: Event, p: nat)
    requires TreeInv(s) && WaitInv(s) && Enabled(s, e) && Shape(Next(s, e)) && p < |s.st| && Next(s, e).st[p].InWait?
    ensures HasKid(Next(s, e), p)
  {
    var r := Next(s, e);
    if e == WaitSleep(p) {
      var c :| Child(s, p, c);
      assert r.par[c] == Some(p);
    } else {
      assert s.st[p].InWait? && HasKid(s, p);
      var c :| 0 <= c < |s.st| && s.par[c] == Some(p);
      assert ParentOk(s, c) && ForkOk(s, p);
      assert r.par[c] == Some(p);
    }
  }

  lemma StepKeepsZombie(s: State, e: Event, r: State, c: nat)
    requires TreeInv(s) && WaitInv(s) && Enabled(s, e) && r == Next(s, e) && Shape(r) && c < |s.st|
    requires r.st[c].Zombie? && r.par[c].Some? && r.par[c].value < |s.st|
    ensures !r.st[r.par[c].value].InWait?
  {
    assert ParentOk(s, c) && ForkOk(s, c);
  }

  lemma StepKeepsWait(s: State, e: Event)
    requires TreeInv(s) && WaitInv(s) && Enabled(s, e)
    ensures WaitInv(Next(s, e))
  {
    var r := Next(s, e);
    StepKeepsTree(s, e);
    forall p | 0 <= p < |s.st| && r.st[p].InWait?
      ensures HasKid(r, p)
    {
      StepKeepsKid(s, e, p);
    }
    forall c | 0 <= c < |s.st| && r.st[c].Zombie? && r.par[c].Some? && r.par[c].value < |s.st|
      ensures !r.st[r.par[c].value].InWait?
    {
      StepKeepsZombie(s, e, r, c);
    }
  }

  // ---- ages ----

  /** Parents, and processes filling a slot, have smaller pids. */
  ghost predicate AgeOk(s: State, q: int)
    requires Shape(s) && 0 <= q < |s.st|
  {
    && (s.par[q].Some? && s.par[q].value < |s.st| ==> s.pid[s.par[q].value] < s.pid[q])
    && (s.maker[q].Some? && s.maker[q].value < |s.st| ==> s.pid[s.maker[q].value] < s.pid[q])
  }

  ghost predicate AgeInv(s: State) {
    Shape(s) && s.pid[s.init] == 1 && forall q {:trigger AgeOk(s, q)} | 0 <= q < |s.st| :: AgeOk(s, q)
  }

  lemma StepAge(s: State, e: Event, r: State, q: nat)
    requires TreeInv(s) && PidInv(s) && AgeInv(s) && Enabled(s, e) && r == Next(s, e) && Shape(r) && q < |s.st|
    ensures AgeOk(r, q)
  {
    assert AgeOk(s, q) && ParentOk(s, q) && ForkOk(s, q) && PidOk(s, q) && PidsApart(s, q, s.init) && PidOk(s, s.init);
    if e.Alloc? {
      assert PidOk(s, e.p) && ParentOk(s, e.np);
    }
    if e.SetParent? {
      assert ForkOk(s, e.p) && AgeOk(s, s.fork[e.p].value);
    }
    if s.par[q].Some? {
      assert PidOk(s, s.par[q].value);
    }
    if s.maker[q].Some? {
      assert PidOk(s, s.maker[q].value) && ForkOk(s, s.maker[q].value);
    }
  }

  lemma StepKeepsAge(s: State, e: Event)
    requires TreeInv(s) && PidInv(s) && AgeInv(s) && Enabled(s, e)
    ensures AgeInv(Next(s, e))
  {
    var r := Next(s, e);
    StepKeepsTree(s, e);
    assert ParentOk(s, s.init) && PidOk(s, s.init);
    forall q | 0 <= q < |s.st|
      ensures AgeOk(r, q)
    {
      StepAge(s, e, r, q);
    }
  }

  // ---- runs ----

  ghost predicate Inv(s: State) { TreeInv(s) && PidInv(s) && WaitInv(s) && AgeInv(s) }

  lemma BootInv(s: State)
    requires Boot(s)
    ensures Inv(s)
  {
    forall q | 0 <= q < |s.st|
      ensures ParentOk(s, q) && ForkOk(s, q) && PidOk(s, q) && AgeOk(s, q)
    {
    }
    forall q, r | 0 <= q < |s.st| && 0 <= r < |s.st|
      ensures PidsApart(s, q, r)
    {
    }
  }

  lemma StepKeepsInv(s: State, e: Event)
    requires Inv(s) && Enabled(s, e)
    ensures Inv(Next(s, e))
  {
    StepKeepsTree(s, e);
    StepKeepsPids(s, e);
    StepKeepsWait(s, e);
    StepKeepsAge(s, e);
  }

  lemma {:induction false} RunKeepsInv(s: State, es: seq<Event>)
    requires Inv(s) && Exec(s, es).Some?
    ensures Inv(Exec(s, es).value)
    decreases |es|
  {
    if es != [] {
      StepKeepsInv(s, es[0]);
      RunKeepsInv(Next(s, es[0]), es[1..]);
    }
  }

  // ---- the theorems ----

  /** After any run: no process has an UNUSED or ZOMBIE parent; one asleep in wait has
      a child, and no ZOMBIE child; pids other than 0 are distinct. */
  lemma ProcessTreeSafe(boot: State, es: seq<Event>, s: State, p: nat, q: nat)
    requires Boot(boot) && Exec(boot, es) == Some(s) && Shape(s) && p < |s.st| && q < |s.st|
    ensures s.par[q] == Some(p) ==> !s.st[p].Unused? && !s.st[p].Zombie?
    ensures s.st[p].InWait? ==> HasKid(s, p)
    ensures s.st[p].InWait? && s.par[q] == Some(p) ==> !s.st[q].Zombie?
    ensures s.pid[p] != 0 && s.pid[p] == s.pid[q] ==> p == q
  {
    BootInv(boot);
    RunKeepsInv(boot, es);
    assert ParentOk(s, q) && PidsApart(s, p, q);
  }

  /** A step that frees a ZOMBIE's slot is its current parent's wait. */
  lemma ReapedByParent(s: State, e: Event, c: nat)
    requires Inv(s) && Enabled(s, e) && c < |s.st| == |Next(s, e).st| && s.st[c].Zombie? && Next(s, e).st[c].Unused?
    ensures e.Reap? && e.c == c && s.par[c] == Some(e.p)
  {
    var x := if e.AllocFail? then e.p else c;
    assert ForkOk(s, x) && ForkOk(s, c);
  }

  /** The ancestor a process's parent pointers lead to. */
  ghost function Root(s: State, q: nat): nat
    requires Inv(s) && q < |s.st|
    decreases s.pid[q]
  {
    assert ParentOk(s, q) && AgeOk(s, q);
    if s.par[q].None? then q else Root(s, s.par[q].value)
  }

  /** After any run the processes are a tree with init at its root, so that every
      ZOMBIE has somebody alive to wait for it. */
  lemma {:induction false} RootIsInit(s: State, q: nat)
    requires Inv(s) && q < |s.st| && !s.st[q].Unused? && !s.st[q].Embryo?
    ensures Root(s, q) == s.init
    decreases s.pid[q]
  {
    assert ParentOk(s, q) && AgeOk(s, q);
    if q != s.init {
      RootIsInit(s, s.par[q].value);
    }
  }
}
