/** The scanning loops of allocproc, exit, wait and kill. */
module Proc {
  import opened Basics
  import opened ProcMachine

  /** How one turn of wait's endless loop ends. */
  datatype Waited = Found(pid: nat) | NoPoint | Slept

  class ProcTable {
    var st: seq<PState>
    var pid: seq<nat>
    var par: seq<Option<nat>>
    var killed: seq<bool>
    var nextpid: nat
    const init: nat
    ghost var fork: seq<Option<nat>>
    ghost var maker: seq<Option<nat>>

    ghost function View(): State
      reads this
    {
      State(st, pid, par, killed, fork, maker, nextpid, init)
    }

    /** An empty table, after userinit has made the first process. */
    constructor (n: nat)
      requires n > 0
      ensures Boot(View()) && |st| == n
    {
      st := [Runnable] + seq(n - 1, i => Unused);
      pid := [1] + seq(n - 1, i => 0);
      par, killed := seq(n, i => None), seq(n, i => false);
      fork, maker := seq(n, i => None), seq(n, i => None);
      nextpid, init := 2, 0;
    }

    /** allocproc's locked section: the first UNUSED slot, or None. */
    method Allocproc(p: nat) returns (r: Option<nat>)
      requires Shape(View()) && Runs(View(), p) && fork[p].None?
      modifies this
      ensures r.None? ==> View() == old(View()) && forall q | 0 <= q < |st| :: !st[q].Unused?
      ensures r.Some? ==> Enabled(old(View()), Alloc(p, r.value)) && View() == Next(old(View()), Alloc(p, r.value))
    {
      var q := 0;
      while q < |st|
        invariant q <= |st| && View() == old(View())
        invariant forall x | 0 <= x < q :: !st[x].Unused?
      {
        if st[q].Unused? {
          st, pid := st[q := Embryo], pid[q := nextpid];
          nextpid := nextpid + 1;
          fork, maker := fork[p := Some(q)], maker[q := Some(p)];
          return Some(q);
        }
        q := q + 1;
      }
      r := None;
    }

    /** wakeup1 on the address of slot x: only a process in wait sleeps on one, its own. */
    method Wakeup1(x: nat)
      requires x < |st|
      modifies `st
      ensures st == old(st)[x := Woken(old(st)[x])]
    {
      var q := 0;
      while q < |st|
        invariant q <= |st| == |old(st)|
        invariant forall z | 0 <= z < |st| :: st[z] == if z < q && z == x then Woken(old(st)[z]) else old(st)[z]
      {
        if st[q].InWait? && q == x {
          st := st[q := Runnable];
        }
        q := q + 1;
      }
    }

    /** exit, once its files are closed. */
    method Exit(p: nat)
      requires TreeInv(View()) && Enabled(View(), ProcMachine.Exit(p))
      modifies this
      ensures View() == Next(old(View()), ProcMachine.Exit(p))
    {
      assert ParentOk(View(), p);
      if par[p].Some? {
        Wakeup1(par[p].value);
      }
      ghost var mid := st;
      var q := 0;
      while q < |st|
        invariant q <= |st| == |par| == |old(st)|
        invariant forall z {:trigger par[z]} | 0 <= z < |st| ::
                    par[z] == if z < q && old(par)[z] == Some(p) then Some(init) else old(par)[z]
        invariant st == if DeadKid(old(View()), p, q) then mid[init := Woken(mid[init])] else mid
        invariant unchanged(`pid) && unchanged(`killed) && unchanged(`nextpid) && unchanged(`fork) && unchanged(`maker)
      {
        assert st[q].Zombie? <==> old(st)[q].Zombie?;
        if par[q] == Some(p) {
          par := par[q := Some(init)];
          if st[q].Zombie? {
            Wakeup1(init);
          }
        }
        q := q + 1;
      }
      st := st[p := Zombie];
      assert st == ExitStates(old(View()), p);
      assert par == ExitParents(old(View()), p);
    }

    /** One turn of wait's loop. */
    method Wait(p: nat) returns (r: Waited)
      requires Shape(View()) && Runs(View(), p) && fork[p].None?
      modifies this
      ensures r.Found? ==> exists c: nat :: Enabled(old(View()), Reap(p, c)) && View() == Next(old(View()), Reap(p, c))
                                       && r.pid == old(pid)[c]
      ensures r.Slept? ==> Enabled(old(View()), WaitSleep(p)) && View() == Next(old(View()), WaitSleep(p))
      ensures r.NoPoint? ==> View() == old(View()) && (forall c | Child(View(), p, c) :: !st[c].Zombie?)
                             && (killed[p] || forall c :: !Child(View(), p, c))
    {
      var havekids := false;
      var q := 0;
      while q < |st|
        invariant q <= |st| && View() == old(View())
        invariant havekids <==> exists c :: Child(View(), p, c) && c < q
        invariant forall c | 0 <= c < q :: !(Child(View(), p, c) && st[c].Zombie?)
      {
        if par[q] == Some(p) {
          assert Child(View(), p, q);
          havekids := true;
          if st[q].Zombie? {
            assert Enabled(View(), Reap(p, q));
            r := Found(pid[q]);
            st, pid, par, killed := st[q := Unused], pid[q := 0], par[q := None], killed[q := false];
            assert View() == Next(old(View()), Reap(p, q));
            return;
          }
        }
        q := q + 1;
      }
      if !havekids || killed[p] {
        return NoPoint;
      }
      st := st[p := InWait];
      r := Slept;
    }

    /** kill; false is its -1. */
    method Kill(p: nat, target: nat) returns (ok: bool)
      requires Shape(View()) && Runs(View(), p)
      modifies this
      ensures ok <==> target in old(pid)
      ensures ok ==> exists t: nat :: Enabled(old(View()), ProcMachine.Kill(p, t)) && old(pid)[t] == target
                                 && View() == Next(old(View()), ProcMachine.Kill(p, t))
      ensures !ok ==> View() == old(View())
    {
      var q := 0;
      while q < |st|
        invariant q <= |st| && View() == old(View())
        invariant forall x | 0 <= x < q :: pid[x] != target
      {
        if pid[q] == target {
          assert Enabled(View(), ProcMachine.Kill(p, q));
          killed := killed[q := true];
          if st[q].InWait? || st[q].Asleep? {
            st := st[q := Runnable];
          }
          assert st == old(st)[q := Roused(old(st)[q])];
          assert View() == Next(old(View()), ProcMachine.Kill(p, q));
          return true;
        }
        q := q + 1;
      }
      ok := false;
    }
  }

  /** p has a ZOMBIE child below slot q. */
  ghost predicate DeadKid(s: State, p: nat, q: int)
    requires |s.par| == |s.st|
  {
    exists c :: 0 <= c < q && c < |s.st| && s.par[c] == Some(p) && s.st[c].Zombie?
  }
}
