/** The K&R allocator's free list as a value: which addresses start a free block and how
    many units it has, with the empty `base` lowest; and what freeing and taking do.
    Addresses count header-sized units. */
module FreeList {

  /** Blocks lie above base, apart, and no two touch: the list is fully coalesced. */
  ghost predicate Ok(base: int, f: map<int, int>) {
    && base in f && f[base] == 0
    && (forall a | a in f && a != base :: a > base && f[a] >= 1)
    && (forall a, b | a in f && b in f && a < b :: a + f[a] < b)
  }

  /** Unit u is in the n units from a. */
  ghost predicate In(a: int, n: int, u: int) { a <= u < a + n }

  /** Unit u is free. */
  ghost predicate Covered(f: map<int, int>, u: int) { exists a :: a in f && In(a, f[a], u) }

  /** b follows a in the circular, address-ordered list. */
  ghost predicate Succ(base: int, f: map<int, int>, a: int, b: int) {
    && a in f && b in f
    && if a < b then forall c | c in f :: !(a < c < b)
       else b == base && forall c | c in f :: c <= a
  }

  /** The block of n units at b may go in between p and its successor q. */
  ghost predicate Fits(base: int, f: map<int, int>, p: int, q: int, b: int, n: int) {
    && Ok(base, f) && Succ(base, f, p, q) && n >= 1
    && p < b && p + f[p] <= b && (p < q ==> b + n <= q)
  }

  /** A block apart from all free ones fits where the search for its place ends. */
  lemma ApartFits(base: int, f: map<int, int>, p: int, q: int, b: int, n: int)
    requires Ok(base, f) && Succ(base, f, p, q) && n >= 1 && p < b && (p < q ==> b < q)
    requires forall u | In(b, n, u) :: !Covered(f, u)
    ensures Fits(base, f, p, q, b, n)
  {
    if p + f[p] > b {
      assert In(b, n, b) && In(p, f[p], b);
    }
    if p < q && b + n > q {
      assert In(b, n, q) && In(q, f[q], q);
    }
  }

  // ---- free ----

  predicate JoinsUp(q: int, b: int, n: int) { b + n == q }
  predicate JoinsDown(f: map<int, int>, p: int, b: int) requires p in f { p + f[p] == b }

  /** free: the block goes in, joined with each neighbour it touches. */
  function Insert(f: map<int, int>, p: int, q: int, b: int, n: int): map<int, int>
    requires p in f && q in f
  {
    var m := if JoinsUp(q, b, n) then n + f[q] else n;
    var g := if JoinsUp(q, b, n) then f - {q} else f;
    if JoinsDown(f, p, b) then g[p := f[p] + m] else g[b := m]
  }

  lemma InsertOk(base: int, f: map<int, int>, p: int, q: int, b: int, n: int)
    requires Fits(base, f, p, q, b, n)
    ensures Ok(base, Insert(f, p, q, b, n))
  {
  }

  lemma InsertCovers(base: int, f: map<int, int>, p: int, q: int, b: int, n: int, u: int)
    requires Fits(base, f, p, q, b, n)
    ensures Covered(Insert(f, p, q, b, n), u) <==> Covered(f, u) || In(b, n, u)
  {
    var r := Insert(f, p, q, b, n);
    if a :| a in r && In(a, r[a], u) {
      assert In(b, n, u) || In(p, f[p], u) || In(q, f[q], u) || (a in f && In(a, f[a], u));
    }
    if a :| a in f && In(a, f[a], u) {
      assert In(p, f[p], u) || a == p || a == q || (a in r && r[a] == f[a]);
      var c := if JoinsDown(f, p, b) then p else b;
      assert (a in r && In(a, r[a], u)) || In(c, r[c], u);
    }
    if In(b, n, u) {
      var c := if JoinsDown(f, p, b) then p else b;
      assert In(c, r[c], u);
    }
  }

  // ---- malloc ----

  /** The last n units of block a, or all of it. */
  function Remove(f: map<int, int>, a: int, n: int): map<int, int>
    requires a in f
  {
    if f[a] == n then f - {a} else f[a := f[a] - n]
  }

  lemma RemoveOk(base: int, f: map<int, int>, a: int, n: int)
    requires Ok(base, f) && a in f && 1 <= n <= f[a]
    ensures Ok(base, Remove(f, a, n))
  {
  }

  lemma RemoveCovers(base: int, f: map<int, int>, a: int, n: int, u: int)
    requires Ok(base, f) && a in f && 1 <= n <= f[a]
    ensures Covered(Remove(f, a, n), u) <==> Covered(f, u) && !In(a + f[a] - n, n, u)
  {
    var r := Remove(f, a, n);
    if c :| c in r && In(c, r[c], u) {
      assert c in f && In(c, f[c], u);
    }
    if c :| c in f && In(c, f[c], u) && !In(a + f[a] - n, n, u) {
      assert c in r && In(c, r[c], u);
    }
  }
}
