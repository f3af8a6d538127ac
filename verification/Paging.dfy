/** Two-level page tables in physical memory, and who owns each physical page. */
module Paging {
  import opened Basics

  const NENTRY: nat := 1024
  /** Page-directory entries below this one cover user addresses, below KERNBASE. */
  const KPDX: nat := 512
  /** The first kernel page number, KERNBASE / PGSIZE. */
  const KPAGE: nat := 524288
  const PGSIZE: nat := 4096

  /** 20 bits of page-frame number, the bit PTE_P, 11 other flag bits. */
  const FRAMES: nat := 0x10_0000
  type Perm = x: nat | x < 2048
  datatype Entry = Pte(frame: nat, present: bool, perm: nat)

  /** A 32-bit entry of a page table or directory, or any other word of memory. */
  type Pte = e: Entry | e.frame < FRAMES && e.perm < 2048 witness Pte(0, false, 0)

  const WORD_LIMIT: nat := 0x1_0000_0000

  function Word(e: Pte): (w: nat)
    ensures w < WORD_LIMIT
  {
    e.frame * 4096 + e.perm * 2 + if e.present then 1 else 0
  }

  function FromWord(w: nat): Pte
    requires w < WORD_LIMIT
  {
    Pte(w / 4096, w % 2 == 1, w % 4096 / 2)
  }

  /** Every entry is one word, from which PTE_ADDR and PTE_FLAGS take it apart again. */
  lemma WordOfEntry(e: Pte)
    ensures FromWord(Word(e)) == e
    ensures Word(e) / 4096 == e.frame && Word(e) % 4096 == 2 * e.perm + if e.present then 1 else 0
  {
    var bit := if e.present then 1 else 0;
    Low12(e.frame, e.perm * 2 + bit);
    Low1(e.frame * 2048 + e.perm, bit);
    Low1(e.perm, bit);
  }

  lemma Low12(q: nat, r: nat)
    requires r < 4096
    ensures (q * 4096 + r) / 4096 == q && (q * 4096 + r) % 4096 == r
  {
  }

  lemma Low1(q: nat, r: nat)
    requires r < 2
    ensures (q * 2 + r) / 2 == q && (q * 2 + r) % 2 == r
  {
  }

  /** Every 32-bit word is one entry. */
  lemma EntryOfWord(w: nat)
    requires w < WORD_LIMIT
    ensures Word(FromWord(w)) == w
  {
    var low := w % 4096;
    assert w == w / 4096 * 4096 + low == 2 * (w / 4096 * 2048) + low;
    assert w % 2 == low % 2 && low == low / 2 * 2 + low % 2;
  }

  const ZERO: Pte := Pte(0, false, 0)

  /** A page of memory: 1024 words. */
  type Page = p: seq<Pte> | |p| == NENTRY witness seq(NENTRY, i => ZERO)

  function ZeroPage(): (p: Page)
    ensures forall i | 0 <= i < NENTRY :: p[i] == ZERO
  {
    seq(NENTRY, i => ZERO)
  }

  type Memory = seq<Page>

  /** What a page is for: on the free list, a page directory, the page table for entry
      i of directory d, the page mapped at entry j of table i of d, or held by somebody. */
  datatype Role = Free | Dir | Table(d: nat, i: nat) | User(d: nat, i: nat, j: nat) | Held

  /** The directory a page belongs to. */
  function Owner(r: Role, f: nat): int {
    match r
    case Dir => f
    case Table(d, _) => d
    case User(d, _, _) => d
    case _ => -1
  }

  /** An entry of a directory that is present names the table with that role. */
  ghost predicate PdeOk(m: Memory, role: seq<Role>, d: int, i: int)
    requires |role| == |m| && 0 <= d < |m| && 0 <= i < NENTRY
  {
    m[d][i].present ==> m[d][i].frame < |m| && role[m[d][i].frame] == Table(d, i)
  }

  ghost predicate PteOk(m: Memory, role: seq<Role>, d: int, i: int, t: int, j: int)
    requires |role| == |m| && 0 <= t < |m| && 0 <= j < NENTRY
  {
    m[t][j].present ==> m[t][j].frame < |m| && d >= 0 && i >= 0 && role[m[t][j].frame] == User(d, i, j)
  }

  /** The page table at entry i of directory d is t. */
  ghost predicate Names(m: Memory, role: seq<Role>, d: int, i: int, t: int)
    requires |role| == |m|
  {
    0 <= d < |m| && 0 <= i < NENTRY && role[d] == Dir && m[d][i].present && m[d][i].frame == t
  }

  /** Page f plays its role: everything it names plays the role that says so, and it is
      named from where its role says. */
  ghost predicate FrameOk(m: Memory, role: seq<Role>, f: int)
    requires |role| == |m| && 0 <= f < |m|
  {
    match role[f]
    case Free => true
    case Held => true
    case Dir => forall i {:trigger PdeOk(m, role, f, i)} | 0 <= i < NENTRY :: PdeOk(m, role, f, i)
    case Table(d, i) =>
      && Names(m, role, d, i, f)
      && (i < KPDX ==> forall j {:trigger PteOk(m, role, d, i, f, j)} | 0 <= j < NENTRY :: PteOk(m, role, d, i, f, j))
    case User(d, i, j) =>
      && i < KPDX && j < NENTRY && d < |m| && Names(m, role, d, i, m[d][i].frame)
      && m[d][i].frame < |m| && m[m[d][i].frame][j].present && m[m[d][i].frame][j].frame == f
  }

  ghost predicate Inv(m: Memory, role: seq<Role>) {
    |role| == |m| && forall f {:trigger FrameOk(m, role, f)} | 0 <= f < |m| :: FrameOk(m, role, f)
  }

  // ---- the map from pages to frames ----

  /** The entry for page j of table i of directory d, if there is one. */
  function Lookup(m: Memory, d: nat, i: nat, j: nat): Option<Pte>
    requires d < |m| && i < NENTRY && j < NENTRY
  {
    if !m[d][i].present || m[d][i].frame >= |m| then None
    else if !m[m[d][i].frame][j].present then None
    else Some(m[m[d][i].frame][j])
  }

  /** Mapped user pages and User roles are the same thing. */
  lemma LookupRole(m: Memory, role: seq<Role>, d: nat, i: nat, j: nat)
    requires Inv(m, role) && d < |m| && role[d] == Dir && i < KPDX && j < NENTRY
    ensures Lookup(m, d, i, j).Some? ==>
              var f := Lookup(m, d, i, j).value.frame; f < |m| && role[f] == User(d, i, j)
    ensures forall f | 0 <= f < |m| && role[f] == User(d, i, j) :: Lookup(m, d, i, j).Some? && Lookup(m, d, i, j).value.frame == f
  {
    assert FrameOk(m, role, d) && PdeOk(m, role, d, i);
    if m[d][i].present {
      var t := m[d][i].frame;
      assert FrameOk(m, role, t) && PteOk(m, role, d, i, t, j);
    }
    forall f | 0 <= f < |m| && role[f] == User(d, i, j)
      ensures Lookup(m, d, i, j).Some? && Lookup(m, d, i, j).value.frame == f
    {
      assert FrameOk(m, role, f);
    }
  }

  /** No page is mapped twice, in one address space or in two. */
  lemma NoSharing(m: Memory, role: seq<Role>, d: nat, i: nat, j: nat, d': nat, i': nat, j': nat)
    requires Inv(m, role) && d < |m| && role[d] == Dir && d' < |m| && role[d'] == Dir
    requires i < KPDX && j < NENTRY && i' < KPDX && j' < NENTRY
    requires Lookup(m, d, i, j).Some? && Lookup(m, d', i', j').Some?
    requires Lookup(m, d, i, j).value.frame == Lookup(m, d', i', j').value.frame
    ensures d == d' && i == i' && j == j'
  {
    LookupRole(m, role, d, i, j);
    LookupRole(m, role, d', i', j');
  }

  // ---- steps that keep the invariant ----

  /** A change to a page nobody's tables name: taken, given back or written by its holder. */
  lemma LooseStep(m: Memory, role: seq<Role>, f: nat, x: Role, v: Page)
    requires Inv(m, role) && f < |m| && (role[f].Free? || role[f].Held?) && (x.Free? || x.Held?)
    ensures Inv(m[f := v], role[f := x])
  {
    var m', role' := m[f := v], role[f := x];
    forall g | 0 <= g < |m|
      ensures FrameOk(m', role', g)
    {
      LooseFrame(m, role, f, x, v, g);
    }
  }

  lemma LooseFrame(m: Memory, role: seq<Role>, f: nat, x: Role, v: Page, g: nat)
    requires Inv(m, role) && f < |m| && (role[f].Free? || role[f].Held?) && (x.Free? || x.Held?) && g < |m|
    ensures FrameOk(m[f := v], role[f := x], g)
  {
    var m', role' := m[f := v], role[f := x];
    assert FrameOk(m, role, g);
    if g != f {
      match role[g]
      case Dir =>
        forall i | 0 <= i < NENTRY ensures PdeOk(m', role', g, i) { assert PdeOk(m, role, g, i); }
      case Table(d, i) =>
        if i < KPDX {
          forall j | 0 <= j < NENTRY ensures PteOk(m', role', d, i, g, j) { assert PteOk(m, role, d, i, g, j); }
        }
      case User(d, i, j) =>
        assert FrameOk(m, role, d) && PdeOk(m, role, d, i);
      case _ =>
    }
  }

  /** walkpgdir with alloc: a zeroed page becomes the table of an empty entry. */
  lemma AddTable(m: Memory, role: seq<Role>, d: nat, i: nat, t: nat, perm: Perm)
    requires Inv(m, role) && d < |m| && role[d] == Dir && i < NENTRY && !m[d][i].present
    requires t < |m| && t < FRAMES && role[t] == Held && m[t] == ZeroPage()
    ensures Inv(m[d := m[d][i := Pte(t, true, perm)]], role[t := Table(d, i)])
  {
    var m', role' := m[d := m[d][i := Pte(t, true, perm)]], role[t := Table(d, i)];
    forall g | 0 <= g < |m|
      ensures FrameOk(m', role', g)
    {
      AddTableFrame(m, role, d, i, t, perm, g);
    }
  }

  lemma AddTableFrame(m: Memory, role: seq<Role>, d: nat, i: nat, t: nat, perm: Perm, g: nat)
    requires Inv(m, role) && d < |m| && role[d] == Dir && i < NENTRY && !m[d][i].present
    requires t < |m| && t < FRAMES && role[t] == Held && m[t] == ZeroPage() && g < |m|
    ensures FrameOk(m[d := m[d][i := Pte(t, true, perm)]], role[t := Table(d, i)], g)
  {
    var m', role' := m[d := m[d][i := Pte(t, true, perm)]], role[t := Table(d, i)];
    assert FrameOk(m, role, g) && FrameOk(m, role, d);
    match role'[g]
    case Dir =>
      forall k | 0 <= k < NENTRY ensures PdeOk(m', role', g, k) { assert PdeOk(m, role, g, k); }
    case Table(d', i') =>
      if i' < KPDX {
        forall j | 0 <= j < NENTRY ensures PteOk(m', role', d', i', g, j) { assert PteOk(m, role, d', i', g, j); }
      }
    case User(d', i', j') =>
      assert FrameOk(m, role, d') && PdeOk(m, role, d', i');
    case _ =>
  }

  /** mappages: a held page goes into an empty user entry. */
  lemma MapUser(m: Memory, role: seq<Role>, d: nat, i: nat, t: nat, j: nat, u: nat, perm: Perm)
    requires Inv(m, role) && i < KPDX && j < NENTRY && t < |m| && role[t] == Table(d, i) && !m[t][j].present
    requires u < |m| && u < FRAMES && role[u] == Held
    ensures Inv(m[t := m[t][j := Pte(u, true, perm)]], role[u := User(d, i, j)])
  {
    var m', role' := m[t := m[t][j := Pte(u, true, perm)]], role[u := User(d, i, j)];
    forall g | 0 <= g < |m|
      ensures FrameOk(m', role', g)
    {
      EntryFrame(m, role, d, i, t, j, u, Pte(u, true, perm), g);
    }
  }

  /** deallocuvm: the entry is cleared and the page is nobody's. */
  lemma UnmapUser(m: Memory, role: seq<Role>, d: nat, i: nat, t: nat, j: nat, u: nat)
    requires Inv(m, role) && i < KPDX && j < NENTRY && t < |m| && role[t] == Table(d, i)
    requires u < |m| && role[u] == User(d, i, j)
    ensures Inv(m[t := m[t][j := ZERO]], role[u := Held])
  {
    var m', role' := m[t := m[t][j := ZERO]], role[u := Held];
    forall g | 0 <= g < |m|
      ensures FrameOk(m', role', g)
    {
      EntryFrame(m, role, d, i, t, j, u, ZERO, g);
    }
  }

  lemma EntryFrame(m: Memory, role: seq<Role>, d: nat, i: nat, t: nat, j: nat, u: nat, e: Pte, g: nat)
    requires Inv(m, role) && i < KPDX && j < NENTRY && t < |m| && role[t] == Table(d, i) && u < |m| && g < |m|
    requires (role[u] == Held && !m[t][j].present && e.present && e.frame == u) || (role[u] == User(d, i, j) && e == ZERO)
    ensures FrameOk(m[t := m[t][j := e]], role[u := if e.present then User(d, i, j) else Held], g)
  {
    var m', role' := m[t := m[t][j := e]], role[u := if e.present then User(d, i, j) else Held];
    assert FrameOk(m, role, g) && FrameOk(m, role, t) && FrameOk(m, role, u) && FrameOk(m, role, d);
    match role'[g]
    case Dir =>
      forall k | 0 <= k < NENTRY ensures PdeOk(m', role', g, k) { assert PdeOk(m, role, g, k); }
    case Table(d', i') =>
      if i' < KPDX {
        forall k | 0 <= k < NENTRY ensures PteOk(m', role', d', i', g, k) { assert PteOk(m, role, d', i', g, k); }
      }
    case User(d', i', j') =>
      assert FrameOk(m, role, d') && PdeOk(m, role, d', i');
    case _ =>
  }

  /** mappages above KERNBASE: the entry owns nothing. */
  lemma MapKernel(m: Memory, role: seq<Role>, d: nat, i: nat, t: nat, j: nat, e: Pte)
    requires Inv(m, role) && i >= KPDX && j < NENTRY && t < |m| && role[t] == Table(d, i)
    ensures Inv(m[t := m[t][j := e]], role)
  {
    var m' := m[t := m[t][j := e]];
    forall g | 0 <= g < |m|
      ensures FrameOk(m', role, g)
    {
      KernelFrame(m, role, d, i, t, j, e, g);
    }
  }

  lemma KernelFrame(m: Memory, role: seq<Role>, d: nat, i: nat, t: nat, j: nat, e: Pte, g: nat)
    requires Inv(m, role) && i >= KPDX && j < NENTRY && t < |m| && role[t] == Table(d, i) && g < |m|
    ensures FrameOk(m[t := m[t][j := e]], role, g)
  {
    var m' := m[t := m[t][j := e]];
    assert FrameOk(m, role, g) && FrameOk(m, role, t) && FrameOk(m, role, d);
    match role[g]
    case Dir =>
      forall k | 0 <= k < NENTRY ensures PdeOk(m', role, g, k) { assert PdeOk(m, role, g, k); }
    case Table(d', i') =>
      if i' < KPDX {
        forall k | 0 <= k < NENTRY ensures PteOk(m', role, d', i', g, k) { assert PteOk(m, role, d', i', g, k); }
      }
    case User(d', i', j') =>
      assert FrameOk(m, role, d') && PdeOk(m, role, d', i');
    case _ =>
  }

  /** setupkvm: a zeroed page becomes a directory. */
  lemma NewDir(m: Memory, role: seq<Role>, d: nat)
    requires Inv(m, role) && d < |m| && role[d] == Held && m[d] == ZeroPage()
    ensures Inv(m, role[d := Dir])
  {
    var role' := role[d := Dir];
    forall g | 0 <= g < |m|
      ensures FrameOk(m, role', g)
    {
      assert FrameOk(m, role, g);
      match role'[g]
      case Dir =>
        forall k | 0 <= k < NENTRY ensures PdeOk(m, role', g, k) { assert g != d ==> PdeOk(m, role, g, k); }
      case Table(d', i') =>
        if i' < KPDX {
          forall k | 0 <= k < NENTRY ensures PteOk(m, role', d', i', g, k) { assert PteOk(m, role, d', i', g, k); }
        }
      case User(d', i', j') =>
      case _ =>
    }
  }

  /** The pages of directory d and its tables, once it maps no user page. */
  ghost function Abandoned(role: seq<Role>, d: nat): (r: seq<Role>)
    ensures |r| == |role|
    ensures forall g | 0 <= g < |role| :: r[g] == if Owner(role[g], g) == d then Held else role[g]
  {
    seq(|role|, g requires 0 <= g < |role| => if Owner(role[g], g) == d then Held else role[g])
  }

  lemma Abandon(m: Memory, role: seq<Role>, d: nat)
    requires Inv(m, role) && d < |m| && role[d] == Dir
    ensures Inv(m, Abandoned(role, d))
  {
    var role' := Abandoned(role, d);
    forall g | 0 <= g < |m|
      ensures FrameOk(m, role', g)
    {
      assert FrameOk(m, role, g);
      match role'[g]
      case Dir =>
        forall k | 0 <= k < NENTRY ensures PdeOk(m, role', g, k) { assert PdeOk(m, role, g, k); }
      case Table(d', i') =>
        if i' < KPDX {
          forall k | 0 <= k < NENTRY ensures PteOk(m, role', d', i', g, k) { assert PteOk(m, role, d', i', g, k); }
        }
      case User(d', i', j') =>
      case _ =>
    }
  }
}
