/** kalloc.c and the user part of vm.c: growing, shrinking, copying and freeing address
    spaces in a physical memory they share. */
module Vm {
  import opened Basics
  import opened Paging

  /** Pages in an address space. */
  const NPAGE: nat := 1048576
  const KERNBASE: nat := 0x8000_0000
  const NULL: int := -1
  /** PTE_W | PTE_U, without PTE_P, as bits 1 to 11. */
  const PERM_WU: nat := 3

  /** The pages below byte address x. */
  function Pages(x: nat): (n: nat)
    ensures (n - 1) * PGSIZE < x <= n * PGSIZE
  {
    (x + PGSIZE - 1) / PGSIZE
  }

  /** The entry for page v of the address space of d. */
  function Look(m: Memory, d: nat, v: nat): Option<Pte>
    requires d < |m| && v < NPAGE
  {
    Lookup(m, d, v / NENTRY, v % NENTRY)
  }

  /** Page number of a user role. */
  function At(r: Role): int { if r.User? then r.i * NENTRY + r.j else -1 }

  ghost predicate InRange(v: int, lo: int, hi: int) { lo <= v < hi }

  /** What an operation on pages lo .. hi - 1 of directory d leaves alone: every page of
      anybody else, d's own tables, and d's user pages outside the range. */
  ghost predicate Keeps(m0: Memory, r0: seq<Role>, m1: Memory, r1: seq<Role>, d: nat, lo: int, hi: int) {
    && |m0| == |r0| == |m1| == |r1| && d < |m0|
    && (forall f {:trigger r1[f]} {:trigger m1[f]} | 0 <= f < |m0| && !r0[f].Free? && Owner(r0[f], f) != d ::
          r1[f] == r0[f] && m1[f] == m0[f])
    && (forall f {:trigger r1[f]} | 0 <= f < |m0| && (f == d || (r0[f].Table? && r0[f].d == d)) :: r1[f] == r0[f])
    && (forall f {:trigger r1[f]} {:trigger m1[f]} | 0 <= f < |m0| && r0[f].User? && r0[f].d == d && !InRange(At(r0[f]), lo, hi) ::
          r1[f] == r0[f] && m1[f] == m0[f])
    && (forall v {:trigger Look(m1, d, v)} | 0 <= v < NPAGE && !InRange(v, lo, hi) :: Look(m1, d, v) == Look(m0, d, v))
  }

  lemma AboveKept(m0: Memory, r0: seq<Role>, m1: Memory, r1: seq<Role>, d: nat, v: nat)
    requires Keeps(m0, r0, m1, r1, d, 0, v) && v < NPAGE
    ensures Look(m1, d, v) == Look(m0, d, v)
  {
  }

  lemma KeepsRefl(m: Memory, r: seq<Role>, d: nat, lo: int, hi: int)
    requires |m| == |r| && d < |m|
    ensures Keeps(m, r, m, r, d, lo, hi)
  {
  }

  lemma KeepsTrans(m0: Memory, r0: seq<Role>, m1: Memory, r1: seq<Role>, m2: Memory, r2: seq<Role>, d: nat, lo: int, hi: int)
    requires Keeps(m0, r0, m1, r1, d, lo, hi) && Keeps(m1, r1, m2, r2, d, lo, hi)
    ensures Keeps(m0, r0, m2, r2, d, lo, hi)
  {
    forall f {:trigger r2[f]} {:trigger m2[f]} | 0 <= f < |m0| && !r0[f].Free? && Owner(r0[f], f) != d
      ensures r2[f] == r0[f] && m2[f] == m0[f]
    {
      assert r1[f] == r0[f];
    }
    forall f {:trigger r2[f]} | 0 <= f < |m0| && (f == d || (r0[f].Table? && r0[f].d == d))
      ensures r2[f] == r0[f]
    {
      assert r1[f] == r0[f];
    }
    forall f {:trigger r2[f]} {:trigger m2[f]} | 0 <= f < |m0| && r0[f].User? && r0[f].d == d && !InRange(At(r0[f]), lo, hi)
      ensures r2[f] == r0[f] && m2[f] == m0[f]
    {
      assert r1[f] == r0[f];
    }
    forall v {:trigger Look(m2, d, v)} | 0 <= v < NPAGE && !InRange(v, lo, hi)
      ensures Look(m2, d, v) == Look(m0, d, v)
    {
      assert Look(m1, d, v) == Look(m0, d, v);
    }
  }

  lemma KeepsWider(m0: Memory, r0: seq<Role>, m1: Memory, r1: seq<Role>, d: nat, lo: int, hi: int, lo': int, hi': int)
    requires Keeps(m0, r0, m1, r1, d, lo, hi) && forall v | InRange(v, lo, hi) :: InRange(v, lo', hi')
    ensures Keeps(m0, r0, m1, r1, d, lo', hi')
  {
  }

  // ---- steps seen from where an operation began ----

  /** A table of d is neither a free page nor one that somebody holds. */
  lemma TableRole(m: Memory, r: seq<Role>, d: nat, i: nat)
    requires Inv(m, r) && d < |m| && r[d] == Dir && i < NENTRY && m[d][i].present
    ensures m[d][i].frame < |m| && r[m[d][i].frame] == Table(d, i)
  {
    assert FrameOk(m, r, d) && PdeOk(m, r, d, i);
  }

  lemma KeepsLoose(m0: Memory, r0: seq<Role>, m: Memory, r: seq<Role>, d: nat, lo: int, hi: int, f: nat, x: Role, c: Page)
    requires Keeps(m0, r0, m, r, d, lo, hi) && Inv(m, r) && r[d] == Dir && f < |m|
    requires r0[f].Free? || (r0[f].User? && r0[f].d == d && InRange(At(r0[f]), lo, hi))
    requires (r[f].Free? || r[f].Held?) && (x.Free? || x.Held?)
    ensures Keeps(m0, r0, m[f := c], r[f := x], d, lo, hi)
  {
    var m' := m[f := c];
    forall v {:trigger Look(m', d, v)} | 0 <= v < NPAGE && !InRange(v, lo, hi)
      ensures Look(m', d, v) == Look(m0, d, v)
    {
      assert Look(m, d, v) == Look(m0, d, v);
      if m[d][v / NENTRY].present {
        TableRole(m, r, d, v / NENTRY);
      }
    }
  }

  lemma KeepsTable(m0: Memory, r0: seq<Role>, m: Memory, r: seq<Role>, d: nat, lo: int, hi: int, i: nat, t: nat, perm: Perm)
    requires Keeps(m0, r0, m, r, d, lo, hi) && Inv(m, r) && r[d] == Dir && i < NENTRY && !m[d][i].present
    requires t < |m| && t < FRAMES && r0[t].Free? && r[t].Held? && m[t] == ZeroPage()
    ensures Keeps(m0, r0, m[d := m[d][i := Pte(t, true, perm)]], r[t := Table(d, i)], d, lo, hi)
  {
    var m' := m[d := m[d][i := Pte(t, true, perm)]];
    forall v {:trigger Look(m', d, v)} | 0 <= v < NPAGE && !InRange(v, lo, hi)
      ensures Look(m', d, v) == Look(m0, d, v)
    {
      assert Look(m, d, v) == Look(m0, d, v);
      if v / NENTRY != i && m[d][v / NENTRY].present {
        TableRole(m, r, d, v / NENTRY);
      }
    }
  }

  /** Entry j of table i is set to e: only the page that entry is for looks different. */
  lemma EntryLook(m: Memory, r: seq<Role>, d: nat, i: nat, t: nat, j: nat, e: Pte, v: nat)
    requires Inv(m, r) && d < |m| && r[d] == Dir && i < NENTRY && j < NENTRY && v < NPAGE
    requires t < |m| && r[t] == Table(d, i)
    ensures Look(m[t := m[t][j := e]], d, v)
         == if v / NENTRY == i && v % NENTRY == j then (if e.present then Some(e) else None) else Look(m, d, v)
  {
    assert FrameOk(m, r, t) && Names(m, r, d, i, t);
    if m[d][v / NENTRY].present {
      TableRole(m, r, d, v / NENTRY);
    }
  }

  lemma SamePage(v: nat, w: nat)
    requires v / NENTRY == w / NENTRY && v % NENTRY == w % NENTRY
    ensures v == w
  {
    assert v == v / NENTRY * NENTRY + v % NENTRY && w == w / NENTRY * NENTRY + w % NENTRY;
  }

  lemma KeepsEntry(m0: Memory, r0: seq<Role>, m: Memory, r: seq<Role>, d: nat, lo: int, hi: int, w: nat, t: nat, e: Pte,
                   u: nat, x: Role)
    requires Keeps(m0, r0, m, r, d, lo, hi) && Inv(m, r) && r[d] == Dir && w < NPAGE && InRange(w, lo, hi)
    requires t < |m| && r[t] == Table(d, w / NENTRY) && u < |m| && u != t
    requires r0[u].Free? || (r0[u].User? && r0[u].d == d && InRange(At(r0[u]), lo, hi))
    ensures Keeps(m0, r0, m[t := m[t][w % NENTRY := e]], r[u := x], d, lo, hi)
  {
    var m' := m[t := m[t][w % NENTRY := e]];
    forall v {:trigger Look(m', d, v)} | 0 <= v < NPAGE && !InRange(v, lo, hi)
      ensures Look(m', d, v) == Look(m0, d, v)
    {
      assert Look(m, d, v) == Look(m0, d, v);
      EntryLook(m, r, d, w / NENTRY, t, w % NENTRY, e, v);
      if v / NENTRY == w / NENTRY && v % NENTRY == w % NENTRY {
        SamePage(v, w);
      }
    }
  }

  // ---- the free list ----

  /** The list holds the free pages, each once; the kernel's own pages are not on it. */
  ghost predicate ListOk(free: seq<nat>, role: seq<Role>, kend: nat) {
    && Once(free)
    && (forall f {:trigger f in free} :: f in free ==> 0 <= f < |role| && role[f].Free?)
    && (forall f {:trigger role[f]} | 0 <= f < |role| && role[f].Free? :: f in free)
    && (forall f {:trigger role[f]} | 0 <= f < kend && f < |role| :: role[f].Held?)
  }

  class Machine {
    /** The first page after the kernel. */
    const kend: nat
    var mem: Memory
    var free: seq<nat>
    ghost var role: seq<Role>

    ghost predicate Valid()
      reads this
    {
      Inv(mem, role) && ListOk(free, role, kend) && |mem| < FRAMES
    }

    /** Before kinit1: no page is on the free list. */
    constructor (mem: Memory, kend: nat)
      requires |mem| < FRAMES
      ensures Valid() && this.mem == mem && this.kend == kend && free == []
      ensures forall f | 0 <= f < |mem| :: role[f].Held?
    {
      this.mem, this.kend, free := mem, kend, [];
      role := seq(|mem|, f => Held);
      new;
      forall f | 0 <= f < |mem| ensures FrameOk(mem, role, f) { }
    }

    /** freerange: kfree of the pages lo .. hi - 1. */
    method Freerange(lo: nat, hi: nat)
      requires Valid() && kend <= lo && hi <= |mem| && forall f | lo <= f < hi :: role[f].Held?
      modifies this
      ensures Valid() && |mem| == old(|mem|) && |role| == old(|role|)
      ensures forall f | 0 <= f < |role| :: role[f] == if lo <= f < hi then Free else old(role)[f]
      ensures forall f | 0 <= f < |mem| && !(lo <= f < hi) :: mem[f] == old(mem)[f]
    {
      var p := lo;
      while p < hi
        invariant lo <= p && (lo <= hi ==> p <= hi) && Valid() && |mem| == old(|mem|) && |role| == old(|role|)
        invariant forall f {:trigger role[f]} | 0 <= f < |role| :: role[f] == if lo <= f < p && f < hi then Free else old(role)[f]
        invariant forall f {:trigger mem[f]} | 0 <= f < |mem| && !(lo <= f < hi) :: mem[f] == old(mem)[f]
      {
        Kfree(p);
        p := p + 1;
      }
    }

    /** kalloc. */
    method Kalloc() returns (f: int)
      requires Valid()
      modifies `free, `role
      ensures Valid()
      ensures f == NULL <==> old(free) == []
      ensures f == NULL ==> role == old(role) && free == old(free)
      ensures f != NULL ==> 0 <= f < |mem| && f >= kend && old(role)[f].Free? && role == old(role)[f := Held]
    {
      if free == [] {
        return NULL;
      }
      f := free[0];
      assert f in free;
      LooseStep(mem, role, f, Held, mem[f]);
      assert mem[f := mem[f]] == mem;
      assert free == [free[0]] + free[1..];
      assert forall g :: g in free[1..] ==> g in free;
      free, role := free[1..], role[f := Held];
    }

    /** kfree, of a page that is not free: filled with ones and put on the list. Where the
        page was still in use, everything is in order again once what names it is gone. */
    method Kfree(f: nat)
      requires ListOk(free, role, kend) && |role| == |mem| && kend <= f < |mem| && !role[f].Free?
      modifies this
      ensures ListOk(free, role, kend) && role == old(role)[f := Free]
      ensures old(Valid()) && old(role)[f].Held? ==> Valid()
      ensures |mem| == old(|mem|) && forall g | 0 <= g < |mem| && g != f :: mem[g] == old(mem)[g]
    {
      var junk := Junk();
      if Inv(mem, role) && role[f].Held? {
        LooseStep(mem, role, f, Free, junk);
      }
      assert f !in free;
      mem := mem[f := junk];
      free, role := [f] + free, role[f := Free];
      assert free[1..] == old(free);
    }

    /** walkpgdir: the page table for entry i, made if it is missing and alloc says so. */
    method Walk(d: nat, i: nat, alloc: bool) returns (t: int)
      requires Valid() && d < |mem| && role[d] == Dir && i < NENTRY
      modifies this
      ensures Valid() && |mem| == old(|mem|) && Keeps(old(mem), old(role), mem, role, d, 0, 0)
      ensures t == NULL ==> mem == old(mem) && role == old(role) && !mem[d][i].present && (alloc ==> free == [])
      ensures t != NULL ==> 0 <= t < |mem| && role[t] == Table(d, i)
      ensures old(mem)[d][i].present || !alloc ==> mem == old(mem) && role == old(role) && free == old(free)
      ensures OnlyFor(old(role), role, d)
    {
      KeepsRefl(mem, role, d, 0, 0);
      if mem[d][i].present {
        TableRole(mem, role, d, i);
        return mem[d][i].frame;
      }
      if !alloc {
        return NULL;
      }
      t := Kalloc();
      if t == NULL {
        return;
      }
      KeepsLoose(mem, old(role), mem, old(role), d, 0, 0, t, Held, ZeroPage());
      LooseStep(mem, role, t, Held, ZeroPage());
      assert role[t := Held] == role && old(role)[t := Held] == role;
      mem := mem[t := ZeroPage()];
      KeepsTable(old(mem), old(role), mem, role, d, 0, 0, i, t, PERM_WU);
      AddTable(mem, role, d, i, t, PERM_WU);
      mem := mem[d := mem[d][i := Pte(t, true, PERM_WU)]];
      role := role[t := Table(d, i)];
    }

    /** mappages for one user page, mapping the held page u; false when a page table is
        needed and there is no page for it. */
    method MapPage(d: nat, v: nat, u: nat, perm: Perm) returns (ok: bool)
      requires Valid() && d < |mem| && role[d] == Dir && v < KPAGE && kend <= u < |mem| && role[u].Held?
      requires Look(mem, d, v).None?
      modifies this
      ensures Valid() && |mem| == old(|mem|)
      ensures !ok ==> mem == old(mem) && role == old(role)
      ensures ok ==> Keeps(old(mem), old(role)[u := Free], mem, role, d, v, v + 1)
      ensures ok ==> Look(mem, d, v) == Some(Pte(u, true, perm)) && mem[u] == old(mem)[u]
      ensures ok ==> OnlyFor(old(role)[u := Free], role, d)
    {
      var t := Walk(d, v / NENTRY, true);
      if t == NULL {
        return false;
      }
      assert role[u].Held? && mem[u] == old(mem)[u];
      assert Look(mem, d, v).None?;
      TableEmpty(mem, role, d, v, t);
      // so the panic on a page that is already mapped is not reached
      assert !mem[t][v % NENTRY].present;
      ghost var r0 := old(role)[u := Free];
      assert Keeps(old(mem), r0, mem, role, d, v, v + 1);
      KeepsEntry(old(mem), r0, mem, role, d, v, v + 1, v, t, Pte(u, true, perm), u, User(d, v / NENTRY, v % NENTRY));
      EntryLook(mem, role, d, v / NENTRY, t, v % NENTRY, Pte(u, true, perm), v);
      MapUser(mem, role, d, v / NENTRY, t, v % NENTRY, u, perm);
      mem := mem[t := mem[t][v % NENTRY := Pte(u, true, perm)]];
      role := role[u := User(d, v / NENTRY, v % NENTRY)];
      ok := true;
    }

    // ---- shrinking ----

    /** One turn of deallocuvm's loop where there is a page table. */
    method DropPage(d: nat, v: nat, t: nat)
      requires Valid() && d < |mem| && role[d] == Dir && v < KPAGE && t < |mem| && role[t] == Table(d, v / NENTRY)
      modifies this
      ensures Valid() && |mem| == old(|mem|) && Keeps(old(mem), old(role), mem, role, d, v, v + 1)
      ensures Look(mem, d, v).None?
      ensures Dropped(old(role), role, d, v, v + 1)
    {
      KeepsRefl(mem, role, d, v, v + 1);
      TableEmpty(mem, role, d, v, t);
      WhoIsAt(mem, role, d, v);
      if !mem[t][v % NENTRY].present {
        return;
      }
      var u := mem[t][v % NENTRY].frame;
      KeepsEntry(old(mem), old(role), mem, role, d, v, v + 1, v, t, ZERO, u, Held);
      EntryLook(mem, role, d, v / NENTRY, t, v % NENTRY, ZERO, v);
      UnmapUser(mem, role, d, v / NENTRY, t, v % NENTRY, u);
      ghost var m1, r1 := mem[t := mem[t][v % NENTRY := ZERO]], role[u := Held];
      Kfree(u);
      mem := mem[t := mem[t][v % NENTRY := ZERO]];
      assert mem == m1[u := mem[u]] && role == r1[u := Free];
      LooseStep(m1, r1, u, Free, mem[u]);
      KeepsLoose(old(mem), old(role), m1, r1, d, v, v + 1, u, Free, mem[u]);
      assert Look(mem, d, v) == Look(m1, d, v);
    }

    /** deallocuvm. Its jump over a missing page table misses no mapped page. */
    method Deallocuvm(d: nat, oldsz: nat, newsz: nat) returns (r: nat)
      requires Valid() && d < |mem| && role[d] == Dir && oldsz <= KERNBASE
      modifies this
      ensures Valid() && |mem| == old(|mem|) && r == if newsz >= oldsz then oldsz else newsz
      ensures newsz >= oldsz ==> mem == old(mem) && role == old(role)
      ensures newsz < oldsz ==> Shrunk(old(mem), old(role), mem, role, d, Pages(newsz), Pages(oldsz))
      ensures old(Sized(mem, d, oldsz)) ==> Sized(mem, d, r)
    {
      if newsz >= oldsz {
        return oldsz;
      }
      ghost var lo, hi := Pages(newsz), Pages(oldsz);
      var v := Pages(newsz);
      KeepsRefl(mem, role, d, lo, hi);
      while v * PGSIZE < oldsz
        invariant lo <= v && hi <= KPAGE && Valid() && |mem| == old(|mem|)
        invariant Dropping(old(mem), old(role), mem, role, d, lo, hi, v)
      {
        ghost var m1, r1 := mem, role;
        var t := Walk(d, v / NENTRY, false);
        if t == NULL {
          DropSkip(old(mem), old(role), mem, role, d, lo, hi, v);
          v := NextTable(v) - 1;
        } else {
          DropPage(d, v, t);
          DropNext(old(mem), old(role), m1, r1, mem, role, d, lo, hi, v);
        }
        v := v + 1;
      }
      DroppedEnd(old(mem), old(role), mem, role, d, lo, hi, v);
      ShrunkSized(old(mem), old(role), mem, role, d, newsz, oldsz);
      r := newsz;
    }

    // ---- growing ----

    /** A new page with contents c at page number v: one turn of the loops of allocuvm
        and copyuvm. On failure u is the page still held, or NULL. */
    method GrowPage(d: nat, v: nat, c: Page, perm: Perm) returns (ok: bool, u: int)
      requires Valid() && d < |mem| && role[d] == Dir && v < KPAGE && Look(mem, d, v).None?
      modifies this
      ensures Valid() && |mem| == old(|mem|)
      ensures ok ==> Keeps(old(mem), old(role), mem, role, d, v, v + 1) && OnlyFor(old(role), role, d)
                     && MapsTo(mem, d, v, c, perm)
      ensures !ok && u == NULL ==> mem == old(mem) && role == old(role)
      ensures !ok && u != NULL ==>
                && kend <= u < |mem| && old(role)[u].Free? && role == old(role)[u := Held]
                && mem == old(mem)[u := c]
    {
      u := Filled(c);
      if u == NULL {
        return false, NULL;
      }
      ghost var m1, r1 := mem, role;
      LookLoose(old(mem), old(role), d, u, c, v);
      ok := MapPage(d, v, u, perm);
      if ok {
        assert r1[u := Free] == old(role);
        LooseAgain(old(mem), old(role), m1, d, v, v + 1, u);
        KeepsTrans(old(mem), old(role), m1, old(role), mem, role, d, v, v + 1);
      }
    }

    /** kalloc, then memset or memmove. */
    method Filled(c: Page) returns (u: int)
      requires Valid()
      modifies this
      ensures Valid()
      ensures u == NULL ==> mem == old(mem) && role == old(role)
      ensures u != NULL ==>
                && kend <= u < |mem| && |mem| == old(|mem|) && old(role)[u].Free? && role == old(role)[u := Held]
                && mem == old(mem)[u := c]
    {
      u := Kalloc();
      if u != NULL {
        LooseStep(mem, role, u, Held, c);
        assert role[u := Held] == role;
        mem := mem[u := c];
      }
    }

    /** allocuvm; grown says whether it has, which its result 0 may leave open. */
    method Allocuvm(d: nat, oldsz: nat, newsz: nat) returns (r: nat, ghost grown: bool)
      requires Valid() && Sized(mem, d, oldsz) && role[d] == Dir
      modifies this
      ensures Valid() && |mem| == old(|mem|) && role[d] == Dir
      ensures newsz >= KERNBASE ==> r == 0 && !grown && mem == old(mem) && role == old(role)
      ensures newsz < KERNBASE && newsz < oldsz ==> r == oldsz && mem == old(mem) && role == old(role)
      ensures oldsz <= newsz < KERNBASE && grown ==>
                r == newsz && Grew(old(mem), old(role), mem, role, d, Pages(oldsz), Pages(newsz)) && Sized(mem, d, newsz)
      ensures oldsz <= newsz < KERNBASE && !grown ==>
                r == 0 && Keeps(old(mem), old(role), mem, role, d, 0, 0) && Sized(mem, d, oldsz)
    {
      if newsz >= KERNBASE {
        return 0, false;
      }
      if newsz < oldsz {
        return oldsz, false;
      }
      var ok := GrowTo(d, oldsz, newsz);
      r, grown := if ok then newsz else 0, ok;
    }

    /** allocuvm's loop. */
    method GrowTo(d: nat, oldsz: nat, newsz: nat) returns (ok: bool)
      requires Valid() && Sized(mem, d, oldsz) && role[d] == Dir && oldsz <= newsz < KERNBASE
      modifies this
      ensures Valid() && |mem| == old(|mem|) && role[d] == Dir
      ensures ok ==> Grew(old(mem), old(role), mem, role, d, Pages(oldsz), Pages(newsz)) && Sized(mem, d, newsz)
      ensures !ok ==> Keeps(old(mem), old(role), mem, role, d, 0, 0) && Sized(mem, d, oldsz)
    {
      ghost var lo, hi := Pages(oldsz), Pages(newsz);
      var v := Pages(oldsz);
      KeepsRefl(mem, role, d, lo, lo);
      while v * PGSIZE < newsz
        invariant lo <= v <= hi <= KPAGE && Valid() && |mem| == old(|mem|) && role[d] == Dir
        invariant Grew(old(mem), old(role), mem, role, d, lo, v) && OnlyFor(old(role), role, d)
      {
        ghost var m1, r1 := mem, role;
        assert Look(mem, d, v) == Look(old(mem), d, v);
        var u;
        ok, u := GrowPage(d, v, ZeroPage(), PERM_WU);
        if !ok {
          GrewThenHeld(old(mem), old(role), m1, r1, mem, role, d, lo, v, hi, u);
          var _ := UndoGrow(d, newsz, oldsz, u, old(mem), old(role));
          return false;
        }
        GrewNext(old(mem), old(role), m1, r1, mem, role, d, lo, v);
        v := v + 1;
      }
      GrewSized(old(mem), old(role), mem, role, d, oldsz, newsz);
      ok := true;
    }

    /** allocuvm's way out: unmap what it mapped, and free the page it holds, if any. */
    method UndoGrow(d: nat, newsz: nat, oldsz: nat, u: int, ghost m0: Memory, ghost r0: seq<Role>) returns (r: nat)
      requires Valid() && d < |mem| && role[d] == Dir && oldsz < newsz < KERNBASE
      requires u != NULL ==> kend <= u < |mem| && role[u].Held?
      requires Inv(m0, r0) && Keeps(m0, r0, mem, role, d, Pages(oldsz), Pages(newsz)) && r0[d] == Dir
      requires (u != NULL ==> r0[u].Free?) && Sized(m0, d, oldsz)
      modifies this
      ensures Valid() && |mem| == old(|mem|) && role[d] == Dir && Keeps(m0, r0, mem, role, d, 0, 0) && Sized(mem, d, oldsz)
    {
      ghost var lo, hi := Pages(oldsz), Pages(newsz);
      r := Deallocuvm(d, newsz, oldsz);
      KeepsTrans(m0, r0, old(mem), old(role), mem, role, d, lo, hi);
      KeepsNarrow(m0, r0, mem, role, d, lo, hi);
      if u != NULL {
        ghost var m3, r3 := mem, role;
        assert role[u].Held?;
        Kfree(u);
        KeepsLoose(m0, r0, m3, r3, d, 0, 0, u, Free, mem[u]);
        assert mem == m3[u := mem[u]];
      }
      KeepsSized(m0, r0, mem, role, d, oldsz);
    }

    // ---- freeing an address space ----

    /** freevm: gives back the directory, its page tables and its user pages, and
        nothing else. */
    method Freevm(d: nat)
      requires Valid() && d < |mem| && role[d] == Dir
      modifies this
      ensures Valid() && |mem| == old(|mem|) && GaveBack(old(mem), old(role), mem, role, d)
    {
      var _ := Deallocuvm(d, KERNBASE, 0);
      ghost var m1, r1 := mem, role;
      FreeTables(d);
      ghost var m2, r2 := mem, role;
      Kfree(d);
      AllGone(old(mem), old(role), m1, r1, m2, r2, mem, role, d);
    }

    /** freevm's loop: the directory's tables become free, and it is the caller's to free. */
    method FreeTables(d: nat)
      requires Valid() && d < |mem| && role[d] == Dir
      modifies this
      ensures Valid() && |mem| == old(|mem|) && d >= kend && TablesGone(old(mem), old(role), mem, role, d)
    {
      ghost var m1, r1 := mem, role;
      Abandon(mem, role, d);
      ListAbandon(free, role, kend, d);
      role := Abandoned(role, d);
      TablesStart(m1, r1, d);
      var i := 0;
      while i < NENTRY
        invariant i <= NENTRY && Valid() && |mem| == |m1| && TablesFreed(m1, r1, mem, role, d, i)
      {
        if mem[d][i].present {
          TableRole(m1, r1, d, i);
          assert role[mem[d][i].frame].Held? && mem[d][i].frame >= kend;
          Kfree(mem[d][i].frame);
        }
        TablesNext(m1, r1, d, i);
        i := i + 1;
      }
      TablesEnd(m1, r1, mem, role, d);
    }

    // ---- making an address space ----

    /** mappages for a run of kernel pages, none of which is mapped yet; false when there
        is no page for a page table. */
    method MapRange(d: nat, k: KMap) returns (ok: bool)
      requires Valid() && d < |mem| && role[d] == Dir && KPAGE <= k.v && k.v + k.n <= NPAGE
      requires k.pfn + k.n <= FRAMES && Unmapped(mem, d, k.v, k.v + k.n)
      modifies this
      ensures Valid() && |mem| == old(|mem|) && role[d] == Dir && OnlyFor(old(role), role, d)
      ensures Keeps(old(mem), old(role), mem, role, d, k.v, k.v + k.n)
      ensures ok ==> Mapped(mem, d, k, k.n)
    {
      KeepsRefl(mem, role, d, k.v, k.v + k.n);
      var p := 0;
      while p < k.n
        invariant p <= k.n && Valid() && RangeDone(old(mem), old(role), mem, role, d, k, p)
      {
        ghost var m1, r1 := mem, role;
        assert Look(mem, d, k.v + p).None?;
        ok := MapKernelPage(d, k.v + p, Pte(k.pfn + p, true, k.perm));
        if !ok {
          return;
        }
        RangeNext(old(mem), old(role), m1, r1, mem, role, d, k, p);
        p := p + 1;
      }
      ok := true;
    }

    method MapKernelPage(d: nat, v: nat, e: Pte) returns (ok: bool)
      requires Valid() && d < |mem| && role[d] == Dir && KPAGE <= v < NPAGE && e.present && Look(mem, d, v).None?
      modifies this
      ensures Valid() && |mem| == old(|mem|) && role[d] == Dir && OnlyFor(old(role), role, d)
      ensures !ok ==> mem == old(mem) && role == old(role)
      ensures ok ==> Keeps(old(mem), old(role), mem, role, d, v, v + 1) && Look(mem, d, v) == Some(e)
    {
      var t := Walk(d, v / NENTRY, true);
      if t == NULL {
        return false;
      }
      assert Look(mem, d, v).None?;
      KernelEmpty(mem, role, d, v, t);
      // so the panic on a page that is already mapped is not reached
      assert !mem[t][v % NENTRY].present;
      KeepsWider(old(mem), old(role), mem, role, d, 0, 0, v, v + 1);
      KernelIndex(v);
      KeepsKernel(old(mem), old(role), mem, role, d, v, t, e);
      EntryLook(mem, role, d, v / NENTRY, t, v % NENTRY, e, v);
      MapKernel(mem, role, d, v / NENTRY, t, v % NENTRY, e);
      mem := mem[t := mem[t][v % NENTRY := e]];
      ok := true;
    }

    /** setupkvm: a directory with the kernel's mappings and no user page, or NULL and
        nothing changed. */
    method Setupkvm(kmap: seq<KMap>) returns (d: int)
      requires Valid() && KmapOk(kmap)
      modifies this
      ensures Valid() && |mem| == old(|mem|) && Untouched(old(mem), old(role), mem, role)
      ensures d == NULL ==> role == old(role)
      ensures d != NULL ==> 0 <= d < |mem| && NewSpace(old(role), mem, role, d, kmap)
    {
      d := Filled(ZeroPage());
      if d == NULL {
        return;
      }
      NewDir(mem, role, d);
      role := role[d := Dir];
      var ok := MapAll(d, kmap, old(mem), old(role));
      if !ok {
        d := NULL;
      }
    }

    /** setupkvm's loop; on failure d is given back. */
    method MapAll(d: nat, kmap: seq<KMap>, ghost m0: Memory, ghost r0: seq<Role>) returns (ok: bool)
      requires Valid() && KmapOk(kmap) && Inv(m0, r0) && |m0| == |mem| && d < |mem|
      requires Untouched(m0, r0, mem, role) && NewSpace(r0, mem, role, d, [])
      modifies this
      ensures Valid() && |mem| == old(|mem|) && Untouched(m0, r0, mem, role)
      ensures if ok then NewSpace(r0, mem, role, d, kmap) else role == r0
    {
      var x := 0;
      assert kmap[..0] == [];
      while x < |kmap|
        invariant x <= |kmap| && Valid() && |mem| == |m0| && Untouched(m0, r0, mem, role)
        invariant NewSpace(r0, mem, role, d, kmap[..x])
      {
        ghost var m2, r2 := mem, role;
        SpaceRoom(mem, role, r0, d, kmap, x);
        ok := MapRange(d, kmap[x]);
        SpaceNext(m0, r0, m2, r2, mem, role, d, kmap, x);
        if !ok {
          ghost var m3, r3 := mem, role;
          Freevm(d);
          SpaceUndone(m0, r0, m3, r3, mem, role, d);
          return;
        }
        x := x + 1;
      }
      assert kmap[..x] == kmap;
      ok := true;
    }

    /** copyuvm: a new address space with the same kernel mappings, and a copy of every
        page of the old one at the same address with the same flags; or NULL, and
        everything as it was. */
    method Copyuvm(pgdir: nat, sz: nat, kmap: seq<KMap>) returns (d: int)
      requires Valid() && Sized(mem, pgdir, sz) && role[pgdir] == Dir && KmapOk(kmap)
      modifies this
      ensures Valid() && |mem| == old(|mem|) && Untouched(old(mem), old(role), mem, role)
      ensures d == NULL ==> role == old(role)
      ensures d != NULL ==>
                && 0 <= d < |mem| && role[d] == Dir && OnlyFor(old(role), role, d) && old(role)[d].Free?
                && Sized(mem, d, sz) && Copied(old(mem), pgdir, mem, d, Pages(sz))
                && (forall x | 0 <= x < |kmap| :: Mapped(mem, d, kmap[x], kmap[x].n))
    {
      d := Setupkvm(kmap);
      if d == NULL {
        return;
      }
      ghost var m1, r1 := mem, role;
      var ok := CopyPages(pgdir, sz, d, old(mem), old(role));
      if !ok {
        return NULL;
      }
      CopySized(m1, r1, mem, role, pgdir, d, sz, old(mem));
      forall x | 0 <= x < |kmap|
        ensures Mapped(mem, d, kmap[x], kmap[x].n)
      {
        MappedKept(m1, r1, mem, role, d, kmap[x], 0, Pages(sz));
      }
    }

    /** copyuvm's loop, into the new directory d; on failure d is given back. */
    method CopyPages(pgdir: nat, sz: nat, d: nat, ghost m0: Memory, ghost r0: seq<Role>) returns (ok: bool)
      requires Valid() && Inv(m0, r0) && |m0| == |mem| && Sized(m0, pgdir, sz) && r0[pgdir] == Dir
      requires d < |mem| && role[d] == Dir && r0[d].Free? && Untouched(m0, r0, mem, role) && OnlyFor(r0, role, d)
      requires forall v {:trigger Look(mem, d, v)} | 0 <= v < KPAGE :: Look(mem, d, v).None?
      modifies this
      ensures Valid() && |mem| == old(|mem|) && Untouched(m0, r0, mem, role)
      ensures !ok ==> role == r0
      ensures ok ==> role[d] == Dir && OnlyFor(r0, role, d) && Copied(m0, pgdir, mem, d, Pages(sz))
      ensures ok ==> Keeps(old(mem), old(role), mem, role, d, 0, Pages(sz))
    {
      ghost var m1, r1 := mem, role;
      KeepsRefl(mem, role, d, 0, 0);
      var v := 0;
      while v * PGSIZE < sz
        invariant v <= Pages(sz) && Valid() && |mem| == |m1| && role[d] == Dir
        invariant Untouched(m0, r0, mem, role) && OnlyFor(r0, role, d)
        invariant Keeps(m1, r1, mem, role, d, 0, v) && Copied(m0, pgdir, mem, d, v)
      {
        assert Look(m0, pgdir, v).Some?;
        SourceKept(m0, r0, mem, role, pgdir, v);
        var e := Look(mem, pgdir, v).value;
        AboveKept(m1, r1, mem, role, d, v);
        ghost var m2, r2 := mem, role;
        var u;
        ok, u := GrowPage(d, v, mem[e.frame], e.perm);
        if !ok {
          UntouchedHeld(m0, r0, m2, r2, mem, role, d, u, m2[e.frame]);
          GiveUp(d, u, m0, r0);
          return;
        }
        CopyNext(m0, r0, m1, r1, m2, r2, mem, role, pgdir, d, v);
        v := v + 1;
      }
      ok := true;
    }

    /** copyuvm's way out: free the page it holds, if any, and the new space. */
    method GiveUp(d: nat, u: int, ghost m0: Memory, ghost r0: seq<Role>)
      requires Valid() && d < |mem| && role[d] == Dir && Inv(m0, r0) && |m0| == |mem| && r0[d].Free?
      requires Untouched(m0, r0, mem, role)
      requires u == NULL ==> OnlyFor(r0, role, d)
      requires u != NULL ==> kend <= u < |mem| && u != d && r0[u].Free? && role[u].Held? && OnlyFor(r0, role[u := Free], d)
      modifies this
      ensures Valid() && |mem| == old(|mem|) && role == r0 && Untouched(m0, r0, mem, role)
    {
      if u != NULL {
        Kfree(u);
      }
      ghost var m3, r3 := mem, role;
      Freevm(d);
      SpaceUndone(m0, r0, m3, r3, mem, role, d);
    }
  }

  /** The failed turn of copyuvm's loop: u is held, or nothing changed. */
  lemma UntouchedHeld(m0: Memory, r0: seq<Role>, m2: Memory, r2: seq<Role>, m3: Memory, r3: seq<Role>, d: nat, u: int, c: Page)
    requires Untouched(m0, r0, m2, r2) && OnlyFor(r0, r2, d) && d < |m0| && r2[d] == Dir
    requires u == NULL ==> m3 == m2 && r3 == r2
    requires u != NULL ==> 0 <= u < |m2| && r2[u].Free? && r3 == r2[u := Held] && m3 == m2[u := c]
    ensures Untouched(m0, r0, m3, r3)
    ensures if u == NULL then OnlyFor(r0, r3, d) else u != d && r0[u].Free? && OnlyFor(r0, r3[u := Free], d)
  {
    if u != NULL {
      assert r3[u := Free] == r2;
      assert r2[u] == r0[u];
    }
  }

  lemma CopySized(m1: Memory, r1: seq<Role>, m: Memory, r: seq<Role>, s: nat, d: nat, sz: nat, m0: Memory)
    requires d < |m1| && sz <= KERNBASE && Pages(sz) <= KPAGE && Keeps(m1, r1, m, r, d, 0, Pages(sz))
    requires forall v {:trigger Look(m1, d, v)} | 0 <= v < KPAGE :: Look(m1, d, v).None?
    requires Copied(m0, s, m, d, Pages(sz))
    ensures Sized(m, d, sz)
  {
    forall v {:trigger Look(m, d, v)} | 0 <= v < KPAGE
      ensures Look(m, d, v).Some? <==> v < Pages(sz)
    {
      if v < Pages(sz) {
        assert CopyAt(m0, s, m, d, v);
      } else {
        assert Look(m, d, v) == Look(m1, d, v);
      }
    }
  }

  /** The first n pages of space e are copies of those of d. */
  ghost predicate Copied(m0: Memory, d: nat, m: Memory, e: nat, n: nat) {
    d < |m0| && n <= KPAGE && forall v | 0 <= v < n :: CopyAt(m0, d, m, e, v)
  }

  ghost predicate CopyAt(m0: Memory, d: nat, m: Memory, e: nat, v: int)
    requires d < |m0| && 0 <= v < KPAGE
  {
    && Look(m0, d, v).Some? && Look(m0, d, v).value.frame < |m0|
    && MapsTo(m, e, v, m0[Look(m0, d, v).value.frame], Look(m0, d, v).value.perm)
  }

  /** The space being copied looks as it did. */
  lemma SourceKept(m0: Memory, r0: seq<Role>, m: Memory, r: seq<Role>, d: nat, v: nat)
    requires Inv(m0, r0) && Untouched(m0, r0, m, r) && d < |m0| && r0[d] == Dir && v < KPAGE && Look(m0, d, v).Some?
    ensures Look(m, d, v) == Look(m0, d, v) && Look(m0, d, v).value.frame < |m0|
    ensures m[Look(m0, d, v).value.frame] == m0[Look(m0, d, v).value.frame]
  {
    WhoIsAt(m0, r0, d, v);
    TableRole(m0, r0, d, v / NENTRY);
    assert m[d] == m0[d] && m[m0[d][v / NENTRY].frame] == m0[m0[d][v / NENTRY].frame];
  }

  lemma CopyNext(m0: Memory, r0: seq<Role>, m1: Memory, r1: seq<Role>, m2: Memory, r2: seq<Role>, m3: Memory, r3: seq<Role>,
                 s: nat, d: nat, v: nat)
    requires Inv(m0, r0) && d < |m0| && r0[d].Free? && Untouched(m0, r0, m2, r2) && Inv(m2, r2) && r2[d] == Dir && v < KPAGE
    requires Keeps(m1, r1, m2, r2, d, 0, v) && Copied(m0, s, m2, d, v) && Keeps(m2, r2, m3, r3, d, v, v + 1)
    requires OnlyFor(r0, r2, d) && OnlyFor(r2, r3, d) && CopyAt(m0, s, m3, d, v)
    ensures Untouched(m0, r0, m3, r3) && OnlyFor(r0, r3, d) && Keeps(m1, r1, m3, r3, d, 0, v + 1)
    ensures Copied(m0, s, m3, d, v + 1)
  {
    UntouchedKeeps(m0, r0, m2, r2, m3, r3, d, v, v + 1);
    KeepsWider(m1, r1, m2, r2, d, 0, v, 0, v + 1);
    KeepsWider(m2, r2, m3, r3, d, v, v + 1, 0, v + 1);
    KeepsTrans(m1, r1, m2, r2, m3, r3, d, 0, v + 1);
    forall x | 0 <= x < v
      ensures CopyAt(m0, s, m3, d, x)
    {
      assert CopyAt(m0, s, m2, d, x);
      var e := Look(m0, s, x).value;
      StillMapsTo(m2, r2, m3, r3, d, v, v + 1, x, m0[e.frame], e.perm);
    }
  }

  /** A run of kernel pages and the frames they map. */
  datatype KMap = KMap(v: nat, n: nat, pfn: nat, perm: Perm)

  /** The kernel's mappings lie above KERNBASE, map frames that exist in 32 bits of
      address, and do not overlap. */
  ghost predicate KmapOk(kmap: seq<KMap>) {
    && (forall x | 0 <= x < |kmap| ::
          KPAGE <= kmap[x].v && kmap[x].v + kmap[x].n <= NPAGE && kmap[x].pfn + kmap[x].n <= FRAMES)
    && (forall x, y | 0 <= x < y < |kmap| :: kmap[x].v + kmap[x].n <= kmap[y].v || kmap[y].v + kmap[y].n <= kmap[x].v)
  }

  /** The first n pages of k are mapped. */
  ghost predicate Mapped(m: Memory, d: nat, k: KMap, n: nat) {
    d < |m| && n <= k.n && k.v + k.n <= NPAGE
    && forall v {:trigger Look(m, d, v)} | k.v <= v < k.v + n :: Look(m, d, v) == Some(Pte(k.pfn + (v - k.v), true, k.perm))
  }

  /** Nothing that was in use has changed. */
  ghost predicate Untouched(m0: Memory, r0: seq<Role>, m1: Memory, r1: seq<Role>) {
    && |m0| == |r0| == |m1| == |r1|
    && forall f {:trigger r1[f]} {:trigger m1[f]} | 0 <= f < |m0| && !r0[f].Free? :: r1[f] == r0[f] && m1[f] == m0[f]
  }

  /** Pages lo .. hi - 1 are not mapped. */
  ghost predicate Unmapped(m: Memory, d: nat, lo: nat, hi: nat) {
    d < |m| && hi <= NPAGE && forall v {:trigger Look(m, d, v)} | lo <= v < hi :: Look(m, d, v).None?
  }

  ghost predicate InMaps(kmap: seq<KMap>, v: int) {
    exists x :: 0 <= x < |kmap| && kmap[x].v <= v < kmap[x].v + kmap[x].n
  }

  /** d, free before, is a directory with exactly these kernel mappings and no user page;
      all pages newly in use are its own. */
  ghost predicate NewSpace(r0: seq<Role>, m: Memory, r: seq<Role>, d: nat, kmap: seq<KMap>) {
    && |m| == |r| && d < |r| && r[d] == Dir && OnlyFor(r0, r, d) && r0[d].Free?
    && (forall v {:trigger Look(m, d, v)} | 0 <= v < KPAGE :: Look(m, d, v).None?)
    && (forall v {:trigger Look(m, d, v)} | KPAGE <= v < NPAGE && !InMaps(kmap, v) :: Look(m, d, v).None?)
    && (forall x | 0 <= x < |kmap| :: Mapped(m, d, kmap[x], kmap[x].n))
  }

  lemma KernelIndex(v: nat)
    requires KPAGE <= v < NPAGE
    ensures KPDX <= v / NENTRY < NENTRY
  {
  }

  lemma KeepsKernel(m0: Memory, r0: seq<Role>, m: Memory, r: seq<Role>, d: nat, w: nat, t: nat, e: Pte)
    requires Keeps(m0, r0, m, r, d, w, w + 1) && Inv(m, r) && r[d] == Dir && KPAGE <= w < NPAGE
    requires t < |m| && r[t] == Table(d, w / NENTRY) && KPDX <= w / NENTRY < NENTRY
    ensures Keeps(m0, r0, m[t := m[t][w % NENTRY := e]], r, d, w, w + 1)
  {
    var m' := m[t := m[t][w % NENTRY := e]];
    forall v {:trigger Look(m', d, v)} | 0 <= v < NPAGE && !InRange(v, w, w + 1)
      ensures Look(m', d, v) == Look(m0, d, v)
    {
      assert Look(m, d, v) == Look(m0, d, v);
      EntryLook(m, r, d, w / NENTRY, t, w % NENTRY, e, v);
      if v / NENTRY == w / NENTRY && v % NENTRY == w % NENTRY {
        SamePage(v, w);
      }
    }
  }

  lemma KernelEmpty(m: Memory, r: seq<Role>, d: nat, v: nat, t: nat)
    requires Inv(m, r) && d < |m| && r[d] == Dir && v < NPAGE && t < |m| && r[t] == Table(d, v / NENTRY)
    ensures Look(m, d, v).None? <==> !m[t][v % NENTRY].present
  {
    assert FrameOk(m, r, t) && Names(m, r, d, v / NENTRY, t);
  }

  /** mappages has mapped the first p pages of k. */
  ghost predicate RangeDone(m0: Memory, r0: seq<Role>, m: Memory, r: seq<Role>, d: nat, k: KMap, p: nat) {
    && |m| == |m0| && d < |m| && |r| == |m| && r[d] == Dir && OnlyFor(r0, r, d)
    && Keeps(m0, r0, m, r, d, k.v, k.v + k.n) && Mapped(m, d, k, p) && Unmapped(m, d, k.v + p, k.v + k.n)
  }

  lemma RangeNext(m0: Memory, r0: seq<Role>, m1: Memory, r1: seq<Role>, m2: Memory, r2: seq<Role>, d: nat, k: KMap, p: nat)
    requires RangeDone(m0, r0, m1, r1, d, k, p) && p < k.n && k.v + k.n <= NPAGE && OnlyFor(r1, r2, d) && r2[d] == Dir
    requires Keeps(m1, r1, m2, r2, d, k.v + p, k.v + p + 1) && Look(m2, d, k.v + p) == Some(Pte(k.pfn + p, true, k.perm))
    ensures RangeDone(m0, r0, m2, r2, d, k, p + 1)
  {
    KeepsWider(m1, r1, m2, r2, d, k.v + p, k.v + p + 1, k.v, k.v + k.n);
    KeepsTrans(m0, r0, m1, r1, m2, r2, d, k.v, k.v + k.n);
    MappedNext(m1, r1, m2, r2, d, k, p);
    UnmappedNext(m1, r1, m2, r2, d, k, p);
  }

  lemma UnmappedNext(m1: Memory, r1: seq<Role>, m2: Memory, r2: seq<Role>, d: nat, k: KMap, p: nat)
    requires Unmapped(m1, d, k.v + p, k.v + k.n) && p < k.n && k.v + k.n <= NPAGE
    requires Keeps(m1, r1, m2, r2, d, k.v + p, k.v + p + 1)
    ensures Unmapped(m2, d, k.v + p + 1, k.v + k.n)
  {
    forall v {:trigger Look(m2, d, v)} | k.v + p + 1 <= v < k.v + k.n
      ensures Look(m2, d, v).None?
    {
      assert Look(m2, d, v) == Look(m1, d, v);
    }
  }

  /** The next run of kernel pages is apart from those already mapped. */
  lemma SpaceRoom(m: Memory, r: seq<Role>, r0: seq<Role>, d: nat, kmap: seq<KMap>, x: nat)
    requires x < |kmap| && KmapOk(kmap) && NewSpace(r0, m, r, d, kmap[..x])
    ensures Unmapped(m, d, kmap[x].v, kmap[x].v + kmap[x].n)
  {
    forall v {:trigger Look(m, d, v)} | kmap[x].v <= v < kmap[x].v + kmap[x].n
      ensures Look(m, d, v).None?
    {
      assert !InMaps(kmap[..x], v);
    }
  }

  lemma MappedNext(m1: Memory, r1: seq<Role>, m2: Memory, r2: seq<Role>, d: nat, k: KMap, p: nat)
    requires Mapped(m1, d, k, p) && p < k.n && Keeps(m1, r1, m2, r2, d, k.v + p, k.v + p + 1)
    requires Look(m2, d, k.v + p) == Some(Pte(k.pfn + p, true, k.perm))
    ensures Mapped(m2, d, k, p + 1)
  {
    forall v {:trigger Look(m2, d, v)} | k.v <= v < k.v + p
      ensures Look(m2, d, v) == Some(Pte(k.pfn + (v - k.v), true, k.perm))
    {
      assert Look(m2, d, v) == Look(m1, d, v);
    }
  }

  lemma MappedKept(m1: Memory, r1: seq<Role>, m2: Memory, r2: seq<Role>, d: nat, k: KMap, lo: nat, hi: nat)
    requires Mapped(m1, d, k, k.n) && Keeps(m1, r1, m2, r2, d, lo, hi) && (k.v + k.n <= lo || hi <= k.v)
    ensures Mapped(m2, d, k, k.n)
  {
    forall v {:trigger Look(m2, d, v)} | k.v <= v < k.v + k.n
      ensures Look(m2, d, v) == Some(Pte(k.pfn + (v - k.v), true, k.perm))
    {
      assert Look(m2, d, v) == Look(m1, d, v);
    }
  }

  /** Pages belong to directories. */
  lemma OwnerIsDir(m: Memory, r: seq<Role>, f: nat)
    requires Inv(m, r) && f < |m| && Owner(r[f], f) >= 0
    ensures Owner(r[f], f) < |m| && r[Owner(r[f], f)] == Dir
  {
    assert FrameOk(m, r, f);
  }

  lemma UntouchedKeeps(m0: Memory, r0: seq<Role>, m1: Memory, r1: seq<Role>, m2: Memory, r2: seq<Role>, d: nat, lo: int, hi: int)
    requires Inv(m0, r0) && Untouched(m0, r0, m1, r1) && d < |m0| && r0[d].Free? && Keeps(m1, r1, m2, r2, d, lo, hi)
    ensures Untouched(m0, r0, m2, r2)
  {
    forall f {:trigger r2[f]} {:trigger m2[f]} | 0 <= f < |m0| && !r0[f].Free?
      ensures r2[f] == r0[f] && m2[f] == m0[f]
    {
      assert r1[f] == r0[f];
      if Owner(r0[f], f) >= 0 {
        OwnerIsDir(m0, r0, f);
      }
    }
  }

  lemma SpaceNext(m0: Memory, r0: seq<Role>, m2: Memory, r2: seq<Role>, m3: Memory, r3: seq<Role>, d: nat, kmap: seq<KMap>, x: nat)
    requires Inv(m0, r0) && Untouched(m0, r0, m2, r2) && x < |kmap| && KmapOk(kmap) && NewSpace(r0, m2, r2, d, kmap[..x])
    requires Keeps(m2, r2, m3, r3, d, kmap[x].v, kmap[x].v + kmap[x].n) && OnlyFor(r2, r3, d) && r3[d] == Dir
    ensures Untouched(m0, r0, m3, r3) && OnlyFor(r0, r3, d) && r0[d].Free?
    ensures Mapped(m3, d, kmap[x], kmap[x].n) ==> NewSpace(r0, m3, r3, d, kmap[..x + 1])
  {
    UntouchedKeeps(m0, r0, m2, r2, m3, r3, d, kmap[x].v, kmap[x].v + kmap[x].n);
    forall y | 0 <= y < x
      ensures Mapped(m3, d, kmap[y], kmap[y].n)
    {
      assert kmap[..x][y] == kmap[y];
      MappedKept(m2, r2, m3, r3, d, kmap[y], kmap[x].v, kmap[x].v + kmap[x].n);
    }
    forall v {:trigger Look(m3, d, v)} | KPAGE <= v < NPAGE && !InMaps(kmap[..x + 1], v)
      ensures Look(m3, d, v).None?
    {
      assert kmap[..x + 1][x] == kmap[x];
      assert !InRange(v, kmap[x].v, kmap[x].v + kmap[x].n);
      InMapsMore(kmap, x, v);
      assert Look(m3, d, v) == Look(m2, d, v);
    }
  }

  lemma InMapsMore(kmap: seq<KMap>, x: nat, v: int)
    requires x < |kmap|
    ensures InMaps(kmap[..x], v) ==> InMaps(kmap[..x + 1], v)
  {
    if y :| 0 <= y < x && kmap[..x][y].v <= v < kmap[..x][y].v + kmap[..x][y].n {
      assert kmap[..x + 1][y] == kmap[..x][y];
    }
  }

  lemma SpaceUndone(m0: Memory, r0: seq<Role>, m3: Memory, r3: seq<Role>, m4: Memory, r4: seq<Role>, d: nat)
    requires Inv(m0, r0) && Untouched(m0, r0, m3, r3) && d < |m0| && r0[d].Free? && OnlyFor(r0, r3, d)
    requires GaveBack(m3, r3, m4, r4, d)
    ensures r4 == r0 && Untouched(m0, r0, m4, r4)
  {
    forall f | 0 <= f < |r0|
      ensures r4[f] == r0[f] && (!r0[f].Free? ==> m4[f] == m0[f])
    {
      if Owner(r0[f], f) >= 0 {
        OwnerIsDir(m0, r0, f);
      }
      assert r3[f] == r0[f] || Owner(r3[f], f) == d;
    }
  }

  /** d's pages are free; everybody else's are as they were. */
  ghost predicate GaveBack(m0: Memory, r0: seq<Role>, m1: Memory, r1: seq<Role>, d: nat) {
    && |m0| == |r0| == |m1| == |r1|
    && (forall f {:trigger r1[f]} | 0 <= f < |r0| :: r1[f] == if Owner(r0[f], f) == d then Free else r0[f])
    && (forall f {:trigger m1[f]} | 0 <= f < |r0| && !r0[f].Free? && Owner(r0[f], f) != d :: m1[f] == m0[f])
  }

  /** freevm's loop over the directory has given back the tables of entries below i. */
  ghost predicate TablesFreed(m1: Memory, r1: seq<Role>, m: Memory, r: seq<Role>, d: nat, i: int) {
    && |m1| == |r1| == |m| == |r| && d < |m|
    && (forall f {:trigger r[f]} | 0 <= f < |r1| ::
          r[f] == if r1[f].Table? && r1[f].d == d && r1[f].i < i then Free else if Owner(r1[f], f) == d then Held else r1[f])
    && (forall f {:trigger m[f]} | 0 <= f < |r1| && !r1[f].Free? && (Owner(r1[f], f) != d || f == d) :: m[f] == m1[f])
  }

  lemma ListAbandon(free: seq<nat>, role: seq<Role>, kend: nat, d: nat)
    requires ListOk(free, role, kend) && d < |role| && role[d] == Dir
    ensures ListOk(free, Abandoned(role, d), kend) && d >= kend
  {
  }

  lemma TablesStart(m1: Memory, r1: seq<Role>, d: nat)
    requires |m1| == |r1| && d < |m1|
    ensures TablesFreed(m1, r1, m1, Abandoned(r1, d), d, 0)
  {
  }

  /** Only the table of entry i, if there is one, has the role Table(d, i). */
  lemma TablesNext(m1: Memory, r1: seq<Role>, d: nat, i: nat)
    requires Inv(m1, r1) && d < |m1| && r1[d] == Dir && i < NENTRY
    ensures forall f {:trigger r1[f]} | 0 <= f < |m1| && r1[f] == Table(d, i) :: m1[d][i].present && m1[d][i].frame == f
  {
    forall f {:trigger r1[f]} | 0 <= f < |m1| && r1[f] == Table(d, i)
      ensures m1[d][i].present && m1[d][i].frame == f
    {
      assert FrameOk(m1, r1, f) && Names(m1, r1, d, i, f);
    }
  }

  /** Of directory d's pages only those of its tables are free yet. */
  ghost predicate TablesGone(m1: Memory, r1: seq<Role>, m: Memory, r: seq<Role>, d: nat) {
    && |m1| == |r1| == |m| == |r| && d < |m| && r[d].Held?
    && (forall f {:trigger r[f]} | 0 <= f < |r1| && f != d ::
          r[f] == if r1[f].Table? && r1[f].d == d then Free else if Owner(r1[f], f) == d then Held else r1[f])
    && (forall f {:trigger m[f]} | 0 <= f < |r1| && !r1[f].Free? && Owner(r1[f], f) != d :: m[f] == m1[f])
  }

  lemma TablesEnd(m1: Memory, r1: seq<Role>, m: Memory, r: seq<Role>, d: nat)
    requires Inv(m1, r1) && TablesFreed(m1, r1, m, r, d, NENTRY) && r1[d] == Dir
    ensures TablesGone(m1, r1, m, r, d)
  {
    forall f {:trigger r[f]} | 0 <= f < |r1| && r1[f].Table? && r1[f].d == d
      ensures r[f].Free?
    {
      assert FrameOk(m1, r1, f) && Names(m1, r1, d, r1[f].i, f);
    }
  }

  lemma AllGone(m0: Memory, r0: seq<Role>, m1: Memory, r1: seq<Role>, m2: Memory, r2: seq<Role>,
                m: Memory, r: seq<Role>, d: nat)
    requires Inv(m0, r0) && Shrunk(m0, r0, m1, r1, d, 0, KPAGE) && Inv(m1, r1) && r0[d] == Dir
    requires TablesGone(m1, r1, m2, r2, d) && r == r2[d := Free]
    requires |m| == |m2| && forall f | 0 <= f < |m| && f != d :: m[f] == m2[f]
    ensures GaveBack(m0, r0, m, r, d)
  {
    forall f {:trigger r[f]} | 0 <= f < |r0|
      ensures r[f] == if Owner(r0[f], f) == d then Free else r0[f]
    {
      if r0[f].User? && r0[f].d == d {
        assert FrameOk(m0, r0, f);
        Digits(r0[f].i, r0[f].j);
        assert InRange(At(r0[f]), 0, KPAGE);
      }
      assert r1[f] == if r0[f].User? && r0[f].d == d && InRange(At(r0[f]), 0, KPAGE) then Free else r0[f];
      if r0[f].Table? && r0[f].d == d {
        assert FrameOk(m0, r0, f);
      }
    }
    forall f {:trigger m[f]} | 0 <= f < |r0| && !r0[f].Free? && Owner(r0[f], f) != d
      ensures m[f] == m0[f]
    {
      assert r1[f] == r0[f] && m1[f] == m0[f];
    }
  }

  /** The only pages with a new role were free and now belong to d. */
  ghost predicate OnlyFor(r0: seq<Role>, r1: seq<Role>, d: nat) {
    |r1| == |r0| && forall f {:trigger r1[f]} | 0 <= f < |r0| :: r1[f] == r0[f] || (r0[f].Free? && Owner(r1[f], f) == d)
  }

  /** Page v is mapped, with these flags, to a page with these contents. */
  ghost predicate MapsTo(m: Memory, d: nat, v: nat, c: Page, perm: Perm) {
    && d < |m| && v < KPAGE && Look(m, d, v).Some?
    && var e := Look(m, d, v).value; e.present && e.perm == perm && e.frame < |m| && m[e.frame] == c
  }

  /** The address space of a process of size sz maps exactly the pages below it. */
  ghost predicate Sized(m: Memory, d: nat, sz: nat) {
    d < |m| && sz <= KERNBASE && forall v {:trigger Look(m, d, v)} | 0 <= v < KPAGE :: Look(m, d, v).Some? <==> v < Pages(sz)
  }

  lemma ShrunkSized(m0: Memory, r0: seq<Role>, m1: Memory, r1: seq<Role>, d: nat, newsz: nat, oldsz: nat)
    requires d < |m0| && newsz < oldsz && Shrunk(m0, r0, m1, r1, d, Pages(newsz), Pages(oldsz))
    ensures Sized(m0, d, oldsz) ==> Sized(m1, d, newsz)
  {
    if Sized(m0, d, oldsz) {
      forall v {:trigger Look(m1, d, v)} | 0 <= v < KPAGE
        ensures Look(m1, d, v).Some? <==> v < Pages(newsz)
      {
        if !InRange(v, Pages(newsz), Pages(oldsz)) {
          assert Look(m1, d, v) == Look(m0, d, v);
        }
      }
    }
  }

  /** Pages lo .. hi - 1 of d are new, zeroed, writable user pages. */
  ghost predicate Grew(m0: Memory, r0: seq<Role>, m1: Memory, r1: seq<Role>, d: nat, lo: nat, hi: nat) {
    && Keeps(m0, r0, m1, r1, d, lo, hi)
    && (forall v | lo <= v < hi :: MapsTo(m1, d, v, ZeroPage(), PERM_WU))
  }

  lemma LookLoose(m: Memory, r: seq<Role>, d: nat, f: nat, c: Page, v: nat)
    requires Inv(m, r) && d < |m| && r[d] == Dir && f < |m| && (r[f].Free? || r[f].Held?) && v < NPAGE
    ensures Look(m[f := c], d, v) == Look(m, d, v)
  {
    if m[d][v / NENTRY].present {
      TableRole(m, r, d, v / NENTRY);
    }
  }

  /** A free page with other contents is still just a free page. */
  lemma LooseAgain(m0: Memory, r0: seq<Role>, m1: Memory, d: nat, lo: int, hi: int, u: nat)
    requires Inv(m0, r0) && d < |m0| && r0[d] == Dir && u < |m0| && r0[u].Free? && |m1| == |m0| && m1 == m0[u := m1[u]]
    ensures Keeps(m0, r0, m1, r0, d, lo, hi)
  {
    KeepsRefl(m0, r0, d, lo, hi);
    KeepsLoose(m0, r0, m0, r0, d, lo, hi, u, Free, m1[u]);
    assert r0[u := Free] == r0;
  }

  lemma KeepsSized(m0: Memory, r0: seq<Role>, m1: Memory, r1: seq<Role>, d: nat, sz: nat)
    requires Sized(m0, d, sz) && Keeps(m0, r0, m1, r1, d, 0, 0)
    ensures Sized(m1, d, sz)
  {
    forall v {:trigger Look(m1, d, v)} | 0 <= v < KPAGE
      ensures Look(m1, d, v).Some? <==> v < Pages(sz)
    {
      assert Look(m1, d, v) == Look(m0, d, v);
    }
  }

  lemma GrewSized(m0: Memory, r0: seq<Role>, m1: Memory, r1: seq<Role>, d: nat, oldsz: nat, newsz: nat)
    requires Sized(m0, d, oldsz) && oldsz <= newsz <= KERNBASE && Grew(m0, r0, m1, r1, d, Pages(oldsz), Pages(newsz))
    ensures Sized(m1, d, newsz)
  {
    forall v {:trigger Look(m1, d, v)} | 0 <= v < KPAGE
      ensures Look(m1, d, v).Some? <==> v < Pages(newsz)
    {
      if Pages(oldsz) <= v < Pages(newsz) {
        assert MapsTo(m1, d, v, ZeroPage(), PERM_WU);
      } else {
        assert Look(m1, d, v) == Look(m0, d, v);
      }
    }
  }

  lemma KeepsMore(m0: Memory, r0: seq<Role>, m1: Memory, r1: seq<Role>, m2: Memory, r2: seq<Role>, d: nat, lo: int, v: int)
    requires Keeps(m0, r0, m1, r1, d, lo, v) && Keeps(m1, r1, m2, r2, d, v, v + 1) && lo <= v
    ensures Keeps(m0, r0, m2, r2, d, lo, v + 1)
  {
    KeepsWider(m0, r0, m1, r1, d, lo, v, lo, v + 1);
    KeepsWider(m1, r1, m2, r2, d, v, v + 1, lo, v + 1);
    KeepsTrans(m0, r0, m1, r1, m2, r2, d, lo, v + 1);
  }

  lemma GrewNext(m0: Memory, r0: seq<Role>, m1: Memory, r1: seq<Role>, m2: Memory, r2: seq<Role>, d: nat, lo: nat, v: nat)
    requires Inv(m1, r1) && Grew(m0, r0, m1, r1, d, lo, v) && r1[d] == Dir && lo <= v < KPAGE
    requires Keeps(m1, r1, m2, r2, d, v, v + 1) && MapsTo(m2, d, v, ZeroPage(), PERM_WU)
    ensures Grew(m0, r0, m2, r2, d, lo, v + 1)
  {
    KeepsMore(m0, r0, m1, r1, m2, r2, d, lo, v);
    forall x | lo <= x < v
      ensures MapsTo(m2, d, x, ZeroPage(), PERM_WU)
    {
      assert MapsTo(m1, d, x, ZeroPage(), PERM_WU);
      StillMapsTo(m1, r1, m2, r2, d, v, v + 1, x, ZeroPage(), PERM_WU);
    }
  }

  /** A page outside the range keeps its mapping and its contents. */
  lemma StillMapsTo(m1: Memory, r1: seq<Role>, m2: Memory, r2: seq<Role>, d: nat, lo: int, hi: int, x: nat, c: Page, perm: Perm)
    requires Inv(m1, r1) && Keeps(m1, r1, m2, r2, d, lo, hi) && r1[d] == Dir && MapsTo(m1, d, x, c, perm) && !InRange(x, lo, hi)
    ensures MapsTo(m2, d, x, c, perm)
  {
    WhoIsAt(m1, r1, d, x);
    assert Look(m2, d, x) == Look(m1, d, x);
    assert m2[Look(m1, d, x).value.frame] == m1[Look(m1, d, x).value.frame];
  }

  lemma GrewThenHeld(m0: Memory, r0: seq<Role>, m1: Memory, r1: seq<Role>, m2: Memory, r2: seq<Role>,
                     d: nat, lo: nat, v: nat, hi: nat, u: int)
    requires Inv(m1, r1) && Keeps(m0, r0, m1, r1, d, lo, v) && OnlyFor(r0, r1, d) && r1[d] == Dir && v <= hi
    requires u == NULL ==> m2 == m1 && r2 == r1
    requires u != NULL ==> 0 <= u < |m1| && r1[u].Free? && r2 == r1[u := Held] && m2 == m1[u := ZeroPage()]
    ensures Keeps(m0, r0, m2, r2, d, lo, hi) && (u != NULL ==> r0[u].Free?)
  {
    KeepsWider(m0, r0, m1, r1, d, lo, v, lo, hi);
    if u != NULL {
      KeepsLoose(m0, r0, m1, r1, d, lo, hi, u, Held, ZeroPage());
    }
  }

  /** An operation on a range of unmapped pages that leaves them unmapped changed nothing. */
  lemma KeepsNarrow(m0: Memory, r0: seq<Role>, m: Memory, r: seq<Role>, d: nat, lo: nat, hi: nat)
    requires Inv(m0, r0) && Keeps(m0, r0, m, r, d, lo, hi) && r0[d] == Dir && hi <= KPAGE
    requires forall v | lo <= v < hi :: Look(m0, d, v).None? && Look(m, d, v).None?
    ensures Keeps(m0, r0, m, r, d, 0, 0)
  {
    forall f {:trigger r[f]} {:trigger m[f]} | 0 <= f < |m0| && r0[f].User? && r0[f].d == d
      ensures r[f] == r0[f] && m[f] == m0[f]
    {
      if InRange(At(r0[f]), lo, hi) {
        WhoIsAt(m0, r0, d, At(r0[f]));
        assert false;
      }
    }
  }

  /** Pages lo .. hi - 1 of d are gone and on the free list; nothing else changed. */
  ghost predicate Shrunk(m0: Memory, r0: seq<Role>, m1: Memory, r1: seq<Role>, d: nat, lo: nat, hi: nat) {
    && Keeps(m0, r0, m1, r1, d, lo, hi) && hi <= KPAGE && Dropped(r0, r1, d, lo, hi)
    && (forall v | lo <= v < hi :: Look(m1, d, v).None?)
  }

  /** PGADDR(PDX(a) + 1, 0, 0), in pages: where the next page table begins. */
  function NextTable(v: nat): (w: nat)
    ensures v < w
  {
    (v / NENTRY + 1) * NENTRY
  }

  /** No page is mapped through a directory entry that is not present. */
  lemma SkipTable(r0: seq<Role>, m: Memory, r: seq<Role>, d: nat, lo: nat, v: nat)
    requires Inv(m, r) && d < |m| && r[d] == Dir && v < KPAGE && !m[d][v / NENTRY].present
    requires Dropped(r0, r, d, lo, v)
    ensures NextTable(v) <= KPAGE
    ensures Dropped(r0, r, d, lo, NextTable(v))
    ensures forall x | v <= x < NextTable(v) :: Look(m, d, x).None?
  {
    UserPage(v);
    var w := NextTable(v);
    forall x | v <= x < w
      ensures x / NENTRY == v / NENTRY
    {
    }
    forall f {:trigger r[f]} | 0 <= f < |r| && r[f].User? && r[f].d == d
      ensures !InRange(At(r[f]), v, w)
    {
      assert FrameOk(m, r, f);
      Digits(r[f].i, r[f].j);
    }
  }

  lemma DroppedNext(r0: seq<Role>, r1: seq<Role>, r2: seq<Role>, d: nat, lo: nat, v: nat)
    requires Dropped(r0, r1, d, lo, v) && Dropped(r1, r2, d, v, v + 1) && lo <= v
    ensures Dropped(r0, r2, d, lo, v + 1)
  {
    forall f {:trigger r2[f]} | 0 <= f < |r0|
      ensures r2[f] == if r0[f].User? && r0[f].d == d && InRange(At(r0[f]), lo, v + 1) then Free else r0[f]
    {
      assert r1[f] == if r0[f].User? && r0[f].d == d && InRange(At(r0[f]), lo, v) then Free else r0[f];
    }
  }

  /** deallocuvm, on its way from page lo to page hi, has come to v. */
  ghost predicate Dropping(m0: Memory, r0: seq<Role>, m: Memory, r: seq<Role>, d: nat, lo: nat, hi: nat, v: nat) {
    && Keeps(m0, r0, m, r, d, lo, hi) && Dropped(r0, r, d, lo, v) && hi <= KPAGE
    && (forall x {:trigger Look(m, d, x)} | lo <= x < v && x < hi :: Look(m, d, x).None?)
  }

  lemma DropSkip(m0: Memory, r0: seq<Role>, m: Memory, r: seq<Role>, d: nat, lo: nat, hi: nat, v: nat)
    requires Dropping(m0, r0, m, r, d, lo, hi, v) && Inv(m, r) && r[d] == Dir && v < KPAGE && !m[d][v / NENTRY].present
    ensures Dropping(m0, r0, m, r, d, lo, hi, NextTable(v)) && NextTable(v) <= KPAGE
  {
    SkipTable(r0, m, r, d, lo, v);
  }

  lemma DropNext(m0: Memory, r0: seq<Role>, m1: Memory, r1: seq<Role>, m2: Memory, r2: seq<Role>,
                 d: nat, lo: nat, hi: nat, v: nat)
    requires Dropping(m0, r0, m1, r1, d, lo, hi, v) && lo <= v < hi
    requires Keeps(m1, r1, m2, r2, d, v, v + 1) && Look(m2, d, v).None? && Dropped(r1, r2, d, v, v + 1)
    ensures Dropping(m0, r0, m2, r2, d, lo, hi, v + 1)
  {
    KeepsWider(m1, r1, m2, r2, d, v, v + 1, lo, hi);
    KeepsTrans(m0, r0, m1, r1, m2, r2, d, lo, hi);
    DroppedNext(r0, r1, r2, d, lo, v);
    forall x {:trigger Look(m2, d, x)} | lo <= x < v
      ensures Look(m2, d, x).None?
    {
      assert Look(m2, d, x) == Look(m1, d, x);
    }
  }

  lemma DroppedEnd(m0: Memory, r0: seq<Role>, m: Memory, r: seq<Role>, d: nat, lo: nat, hi: nat, v: nat)
    requires Dropping(m0, r0, m, r, d, lo, hi, v) && lo <= hi <= v
    ensures Shrunk(m0, r0, m, r, d, lo, hi)
  {
    forall f {:trigger r[f]} | 0 <= f < |r0|
      ensures r[f] == if r0[f].User? && r0[f].d == d && InRange(At(r0[f]), lo, hi) then Free else r0[f]
    {
    }
    forall x | lo <= x < hi
      ensures Look(m, d, x).None?
    {
    }
  }

  /** The user pages lo .. hi - 1 of d are free now; every other page is what it was. */
  ghost predicate Dropped(r0: seq<Role>, r1: seq<Role>, d: nat, lo: int, hi: int) {
    |r1| == |r0| && forall f {:trigger r1[f]} | 0 <= f < |r0| ::
      r1[f] == if r0[f].User? && r0[f].d == d && InRange(At(r0[f]), lo, hi) then Free else r0[f]
  }

  /** The page mapped at v is the one whose role says so. */
  lemma WhoIsAt(m: Memory, r: seq<Role>, d: nat, v: nat)
    requires Inv(m, r) && d < |m| && r[d] == Dir && v < KPAGE
    ensures Look(m, d, v).Some? ==>
              var f := Look(m, d, v).value.frame;
              f < |m| && r[f] == User(d, v / NENTRY, v % NENTRY) && At(r[f]) == v
    ensures forall f {:trigger r[f]} | 0 <= f < |m| && r[f].User? && r[f].d == d && At(r[f]) == v ::
              Look(m, d, v).Some? && Look(m, d, v).value.frame == f
  {
    UserPage(v);
    LookupRole(m, r, d, v / NENTRY, v % NENTRY);
    forall f {:trigger r[f]} | 0 <= f < |m| && r[f].User? && r[f].d == d && At(r[f]) == v
      ensures Look(m, d, v).Some? && Look(m, d, v).value.frame == f
    {
      assert FrameOk(m, r, f);
      Digits(r[f].i, r[f].j);
    }
  }

  lemma Digits(i: nat, j: nat)
    requires j < NENTRY
    ensures (i * NENTRY + j) / NENTRY == i && (i * NENTRY + j) % NENTRY == j
  {
  }

  lemma UserPage(v: nat)
    requires v < KPAGE
    ensures v / NENTRY < KPDX && At(User(0, v / NENTRY, v % NENTRY)) == v
  {
    assert v == v / NENTRY * NENTRY + v % NENTRY;
  }

  lemma TableEmpty(m: Memory, r: seq<Role>, d: nat, v: nat, t: nat)
    requires Inv(m, r) && d < |m| && r[d] == Dir && v < KPAGE && t < |m| && r[t] == Table(d, v / NENTRY)
    ensures v / NENTRY < KPDX && Look(m, d, v) == if m[t][v % NENTRY].present then Some(m[t][v % NENTRY]) else None
  {
    assert FrameOk(m, r, t) && Names(m, r, d, v / NENTRY, t);
    UserPage(v);
  }

  /** A page with every byte 1. */
  function Junk(): Page { seq(NENTRY, i => FromWord(0x0101_0101)) }
}
