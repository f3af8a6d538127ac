/** malloc, free and morecore of umalloc.c on a memory of headers. */
module Umalloc {
  import opened FreeList

  const NULL: int := 0
  const HEADER: int := 8
  const MINUNITS: int := 4096
  const SBRK_FAILED: int := -1
  const WORD_LIMIT: int := 0x1_0000_0000
  const INT_LIMIT: int := 0x8000_0000
  const KERNBASE: int := 0x8000_0000
  /** The largest request malloc can serve. */
  const MAXREQUEST: int := 0x7FFF_FFF0

  /** The units malloc looks for, with C's unsigned arithmetic. */
  function Units(nbytes: int): int { (nbytes + HEADER - 1) % WORD_LIMIT / HEADER + 1 }

  function Core(nu: int): int { if nu < MINUNITS then MINUNITS else nu }

  /** The byte count morecore passes to sbrk, an int made from an unsigned product. */
  function CoreBytes(nu: int): int {
    var w := Core(nu) * HEADER % WORD_LIMIT;
    if w < INT_LIMIT then w else w - WORD_LIMIT
  }

  /** sbrk(n) of a process with sz bytes of memory: its answer, and the memory it has
      afterwards. `avail` says whether allocuvm finds the pages. A negative n that
      would take sz below zero takes nothing, and one that would leave nothing frees
      everything and reports failure. */
  function Sbrk(sz: int, n: int, avail: bool): (int, int) {
    if n > 0 then
      if sz + n >= KERNBASE || !avail then (SBRK_FAILED, sz) else (sz, sz + n)
    else if n == 0 || sz + n < 0 then (sz, sz)
    else if sz + n == 0 then (SBRK_FAILED, 0)
    else (sz, sz + n)
  }

  /** Unit u belongs to a block handed out. */
  ghost predicate InLive(live: map<int, int>, u: int) { exists a :: a in live && In(a, live[a], u) }

  /** Blocks handed out lie above base and apart, and the units obtained are exactly
      the free ones and theirs, none both. */
  ghost predicate Partition(base: int, f: map<int, int>, live: map<int, int>, heap: set<int>) {
    && (forall a | a in live :: a > base && live[a] >= 1)
    && (forall a, b | a in live && b in live && a < b :: a + live[a] <= b)
    && (forall u | InLive(live, u) :: !Covered(f, u))
    && (forall u :: u in heap <==> Covered(f, u) || InLive(live, u))
  }

  lemma LiveNotFree(base: int, f: map<int, int>, live: map<int, int>, heap: set<int>, a: int)
    requires Ok(base, f) && Partition(base, f, live, heap) && a in live
    ensures a !in f && forall u | In(a, live[a], u) :: InLive(live, u) && !Covered(f, u)
  {
    assert In(a, live[a], a);
    assert InLive(live, a);
    if a in f {
      assert In(a, f[a], a);
      assert false;
    }
  }

  /** A block apart from the free ones does not start where one of them does. */
  lemma ApartNotFree(base: int, f: map<int, int>, b: int, n: int)
    requires Ok(base, f) && b != base && n >= 1 && forall u | In(b, n, u) :: !Covered(f, u)
    ensures b !in f
  {
    assert In(b, n, b);
    assert !Covered(f, b);
    assert b in f ==> In(b, f[b], b);
  }

  lemma FreeKeepsPartition(base: int, f: map<int, int>, live: map<int, int>, heap: set<int>, b: int, g: map<int, int>)
    requires Partition(base, f, live, heap) && b in live
    requires forall u :: Covered(g, u) <==> Covered(f, u) || In(b, live[b], u)
    ensures Partition(base, g, live - {b}, heap)
  {
    forall u
      ensures InLive(live, u) <==> InLive(live - {b}, u) || In(b, live[b], u)
    {
      if a :| a in live && In(a, live[a], u) {
        assert a == b || a in live - {b};
      }
      if a :| a in live - {b} && In(a, (live - {b})[a], u) {
        assert a in live && In(a, live[a], u);
      }
    }
    forall u | InLive(live - {b}, u)
      ensures !In(b, live[b], u)
    {
      var a :| a in live - {b} && In(a, live[a], u);
    }
  }

  lemma TakeKeepsPartition(base: int, f: map<int, int>, live: map<int, int>, heap: set<int>, b: int, n: int, g: map<int, int>)
    requires Partition(base, f, live, heap) && n >= 1 && b > base
    requires forall u | In(b, n, u) :: Covered(f, u)
    requires forall u :: Covered(g, u) <==> Covered(f, u) && !In(b, n, u)
    ensures b !in live && Partition(base, g, live[b := n], heap)
  {
    var live' := live[b := n];
    forall a | a in live
      ensures a != b && (a < b ==> a + live[a] <= b) && (b < a ==> b + n <= a)
    {
      var x := if a <= b then b else a;
      if In(a, live[a], x) && In(b, n, x) {
        assert InLive(live, x) && Covered(f, x);
        assert false;
      }
    }
    forall u
      ensures InLive(live', u) <==> InLive(live, u) || In(b, n, u)
    {
      if a :| a in live && In(a, live[a], u) {
        assert a in live' && In(a, live'[a], u);
      }
      if In(b, n, u) {
        assert b in live' && In(b, live'[b], u);
      }
    }
  }

  lemma CoreKeepsPartition(base: int, f: map<int, int>, live: map<int, int>, heap: set<int>, b: int, n: int,
                           g: map<int, int>, heap': set<int>)
    requires Partition(base, f, live, heap) && forall u | In(b, n, u) :: u !in heap
    requires forall u :: Covered(g, u) <==> Covered(f, u) || In(b, n, u)
    requires forall u :: u in heap' <==> u in heap || In(b, n, u)
    ensures Partition(base, g, live, heap')
  {
    forall u | InLive(live, u)
      ensures !In(b, n, u)
    {
      assert u in heap;
    }
  }

  // ---- the ring of pointers ----

  ghost predicate RingAt(base: int, f: map<int, int>, ptr: map<int, int>, a: int) {
    a in ptr && Succ(base, f, a, ptr[a])
  }

  ghost predicate Ring(base: int, f: map<int, int>, ptr: map<int, int>) {
    forall a {:trigger RingAt(base, f, ptr, a)} | a in f :: RingAt(base, f, ptr, a)
  }

  /** ptr once free has linked in the block at b between p and q. */
  function Linked(f: map<int, int>, ptr: map<int, int>, p: int, q: int, b: int, n: int): map<int, int>
    requires p in f && (JoinsUp(q, b, n) ==> q in ptr)
  {
    var next := if JoinsUp(q, b, n) then ptr[q] else q;
    if JoinsDown(f, p, b) then ptr[b := next][p := next] else ptr[b := next][p := b]
  }

  lemma InsertRing(base: int, f: map<int, int>, ptr: map<int, int>, p: int, q: int, b: int, n: int)
    requires Fits(base, f, p, q, b, n) && Ring(base, f, ptr) && p in ptr && ptr[p] == q && q in ptr
    ensures Ring(base, Insert(f, p, q, b, n), Linked(f, ptr, p, q, b, n))
  {
    var r, t := Insert(f, p, q, b, n), Linked(f, ptr, p, q, b, n);
    forall a | a in r
      ensures RingAt(base, r, t, a)
    {
      assert a in f ==> RingAt(base, f, ptr, a);
      assert RingAt(base, f, ptr, q);
      InsertSucc(base, f, ptr, p, q, b, n, a);
    }
  }

  lemma InsertSucc(base: int, f: map<int, int>, ptr: map<int, int>, p: int, q: int, b: int, n: int, a: int)
    requires Fits(base, f, p, q, b, n) && q in ptr && Succ(base, f, q, ptr[q]) && a in Insert(f, p, q, b, n)
    requires a in f ==> a in ptr && Succ(base, f, a, ptr[a])
    ensures RingAt(base, Insert(f, p, q, b, n), Linked(f, ptr, p, q, b, n), a)
  {
  }

  /** Exact fit: p drops out of the ring. */
  lemma UnlinkRing(base: int, f: map<int, int>, ptr: map<int, int>, prev: int, p: int)
    requires Ok(base, f) && Ring(base, f, ptr) && prev in f && prev in ptr && ptr[prev] == p && p in f && p != base
    ensures prev != p && p in ptr && Ring(base, f - {p}, ptr[prev := ptr[p]])
  {
    assert RingAt(base, f, ptr, prev) && RingAt(base, f, ptr, p);
    forall a | a in f - {p}
      ensures RingAt(base, f - {p}, ptr[prev := ptr[p]], a)
    {
      assert RingAt(base, f, ptr, a);
    }
  }

  /** Shorter blocks at the same addresses: the ring is as it was. */
  lemma ShrinkRing(base: int, f: map<int, int>, ptr: map<int, int>, g: map<int, int>)
    requires Ring(base, f, ptr) && g.Keys == f.Keys
    ensures Ring(base, g, ptr)
  {
    forall a | a in g
      ensures RingAt(base, g, ptr, a)
    {
      assert RingAt(base, f, ptr, a);
    }
  }

  /** What malloc needs to know of the tail, or the whole, of free block p. */
  lemma CarveKeeps(base: int, f: map<int, int>, live: map<int, int>, heap: set<int>, p: int, n: int)
    requires Ok(base, f) && Partition(base, f, live, heap) && p in f && 1 <= n <= f[p]
    ensures var b := p + f[p] - n;
            && Ok(base, Remove(f, p, n)) && Partition(base, Remove(f, p, n), live[b := n], heap)
            && b > base && b !in live && b !in Remove(f, p, n)
    ensures forall a | a in live :: a !in f
  {
    var b := p + f[p] - n;
    RemoveOk(base, f, p, n);
    forall u
      ensures Covered(Remove(f, p, n), u) <==> Covered(f, u) && !In(b, n, u)
    {
      RemoveCovers(base, f, p, n, u);
    }
    forall a | a in live
      ensures a !in f
    {
      LiveNotFree(base, f, live, heap, a);
    }
    assert forall u | In(b, n, u) :: In(p, f[p], u);
    TakeKeepsPartition(base, f, live, heap, b, n, Remove(f, p, n));
  }

  ghost function Region(b: int, n: int): set<int> { set u | b <= u < b + n && In(b, n, u) }

  // ---- walking it ----

  lemma {:induction false} Top(f: set<int>) returns (top: int)
    ensures forall a | a in f :: a <= top
    decreases |f|
  {
    if x :| x in f {
      var y := Top(f - {x});
      top := if x > y then x else y;
      assert forall a | a in f :: a == x || a in f - {x};
    } else {
      top := 0;
    }
  }

  /** How far the circular walk from p has to go to meet address b. */
  function Ahead(base: int, top: int, p: int, b: int): int {
    if p >= b then top - p + b - base + 1 else b - p
  }

  /** The walk that began after fp and is now at p has passed a. */
  predicate Passed(fp: int, p: int, a: int) {
    if fp < p then fp < a < p else a > fp || a < p
  }

  /** Every block the walk has passed is too small. */
  ghost predicate AllSmall(f: map<int, int>, fp: int, p: int, nunits: int) {
    forall a | a in f && Passed(fp, p, a) :: f[a] < nunits
  }

  lemma PassedNone(base: int, f: map<int, int>, fp: int, p: int)
    requires Ok(base, f) && Succ(base, f, fp, p)
    ensures forall a | a in f :: !Passed(fp, p, a)
  {
  }

  lemma PassedOne(base: int, f: map<int, int>, fp: int, p: int, q: int, nunits: int)
    requires Ok(base, f) && Succ(base, f, p, q) && fp in f && p != fp && AllSmall(f, fp, p, nunits) && f[p] < nunits
    ensures AllSmall(f, fp, q, nunits)
  {
  }

  /** Back where it started, the walk has seen every block. */
  lemma NoneLeft(f: map<int, int>, p: int, nunits: int)
    requires p in f && AllSmall(f, p, p, nunits) && f[p] < nunits
    ensures !exists a :: a in f && f[a] >= nunits
  {
    forall a | a in f
      ensures f[a] < nunits
    {
      assert a == p || Passed(p, p, a);
    }
  }

  lemma LiveInHeap(base: int, f: map<int, int>, live: map<int, int>, heap: set<int>, a: int)
    requires Partition(base, f, live, heap) && a in live
    ensures forall u | In(a, live[a], u) :: u in heap
  {
    forall u | In(a, live[a], u)
      ensures u in heap
    {
      assert InLive(live, u);
    }
  }

  // ---- which requests can be served ----

  /** The units hold nbytes beside their header exactly when rounding up does not wrap. */
  lemma UnitsEnough(nbytes: int)
    requires 0 <= nbytes < WORD_LIMIT
    ensures Units(nbytes) >= 1 && ((Units(nbytes) - 1) * HEADER >= nbytes <==> nbytes + HEADER - 1 < WORD_LIMIT)
  {
    var x := (nbytes + HEADER - 1) % WORD_LIMIT;
    assert x == x / HEADER * HEADER + x % HEADER;
    assert nbytes + HEADER - 1 >= WORD_LIMIT ==> x == nbytes + HEADER - 1 - WORD_LIMIT;
  }

  /** The bound on a request is where neither the rounding nor the byte count for sbrk
      wraps, and the count is still positive as an int. */
  lemma RequestBound(nbytes: int)
    requires 0 <= nbytes < WORD_LIMIT
    ensures nbytes <= MAXREQUEST <==> nbytes + HEADER - 1 < WORD_LIMIT && Core(Units(nbytes)) * HEADER < INT_LIMIT
    ensures nbytes <= MAXREQUEST <==> nbytes + HEADER - 1 < WORD_LIMIT && CoreBytes(Units(nbytes)) == Core(Units(nbytes)) * HEADER
    ensures nbytes <= MAXREQUEST ==> 0 < CoreBytes(Units(nbytes))
    ensures nbytes + HEADER - 1 < WORD_LIMIT ==> (nbytes <= MAXREQUEST <==> Units(nbytes) * HEADER < INT_LIMIT)
  {
    UnitsEnough(nbytes);
  }

  /** Beyond the bound, and short of the wrap in the rounding, sbrk gives nothing and may
      take memory away, yet answers as if it had given, except when it takes all. */
  lemma NoMemoryForMore(nbytes: int, sz: int, avail: bool)
    requires MAXREQUEST < nbytes && nbytes + HEADER - 1 < WORD_LIMIT && 0 < sz < KERNBASE
    ensures var (p, sz') := Sbrk(sz, CoreBytes(Units(nbytes)), avail);
            sz' <= sz && (p == SBRK_FAILED <==> sz + CoreBytes(Units(nbytes)) == 0)
  {
    RequestBound(nbytes);
  }

  /** sbrk(0): a header for 2^29 units is put where there is no memory. */
  lemma WrappedByteCount(sz: int, avail: bool)
    ensures Units(0xFFFF_FFF8) == 0x2000_0000 && CoreBytes(Units(0xFFFF_FFF8)) == 0
    ensures Sbrk(sz, CoreBytes(Units(0xFFFF_FFF8)), avail) == (sz, sz)
  {
  }

  /** A count of 2^31 arrives negative, and sbrk has no such memory to take. */
  lemma NegativeByteCount(sz: int, avail: bool)
    requires 0 < sz < KERNBASE
    ensures CoreBytes(Units(MAXREQUEST + 1)) == -INT_LIMIT
    ensures Sbrk(sz, CoreBytes(Units(MAXREQUEST + 1)), avail) == (sz, sz)
  {
  }

  /** A rounding that wraps asks for one unit, the header alone. */
  lemma WrappedRounding()
    ensures Units(0xFFFF_FFF9) == 1 && (Units(0xFFFF_FFF9) - 1) * HEADER < 0xFFFF_FFF9
  {
  }

  class Allocator {
    const base: int
    var ptr: map<int, int>
    var size: map<int, int>
    var freep: int
    /** Bytes of memory the process has. */
    var sz: int
    /** The free blocks, the blocks handed out, and all units the allocator was told
        it has. */
    ghost var free: map<int, int>
    ghost var live: map<int, int>
    ghost var heap: set<int>

    constructor (base: int, sz: int)
      requires base > NULL && HEADER * (base + 1) <= sz < KERNBASE && sz % HEADER == 0
      ensures Valid() && Backed() && this.base == base && live == map[] && heap == {} && freep == NULL
    {
      this.base, this.sz := base, sz;
      ptr, size, freep := map[], map[], NULL;
      free, live, heap := map[], map[], {};
    }

    ghost predicate ListOk()
      reads this
    {
      && base > NULL && Ok(base, free) && Ring(base, free, ptr) && freep in free
      && (forall a | a in free :: a in size && size[a] == free[a])
    }

    ghost predicate Valid()
      reads this
    {
      && base > NULL && Partition(base, free, live, heap)
      && (forall a | a in live :: a in size && size[a] == live[a])
      && (if freep == NULL then free == map[] && live == map[] else ListOk())
    }

    /** The units are all in the memory the process has. */
    ghost predicate Backed()
      reads this
    {
      && HEADER * (base + 1) <= sz < KERNBASE && sz % HEADER == 0
      && forall u | u in heap :: HEADER * (u + 1) <= sz
    }

    /** The block at b lies in the memory the process has, and holds nbytes beside its
        header. */
    ghost predicate Served(b: int, nbytes: int)
      reads this
    {
      && (Units(nbytes) - 1) * HEADER >= nbytes
      && forall u | In(b, Units(nbytes), u) :: 0 <= u && HEADER * (u + 1) <= sz
    }

    /** free's search for the blocks a new one goes between. */
    method Place(b: int) returns (p: int)
      requires ListOk() && b in size && size[b] >= 1 && b > base && forall u | In(b, size[b], u) :: !Covered(free, u)
      ensures p in free && p in ptr && ptr[p] in free && ptr[p] in ptr && b !in free
      ensures Fits(base, free, p, ptr[p], b, size[b])
    {
      ghost var top := Top(free.Keys);
      ApartNotFree(base, free, b, size[b]);
      p := freep;
      assert RingAt(base, free, ptr, p);
      while !(b > p && b < ptr[p])
        invariant p in free && p in ptr
        decreases Ahead(base, top, p, b)
      {
        assert RingAt(base, free, ptr, p);
        if p >= ptr[p] && (b > p || b < ptr[p]) {
          break;
        }
        p := ptr[p];
        assert RingAt(base, free, ptr, p);
      }
      assert RingAt(base, free, ptr, p) && RingAt(base, free, ptr, ptr[p]);
      ApartFits(base, free, p, ptr[p], b, size[b]);
    }

    /** free's work, on a block that no list knows. */
    method Link(b: int)
      requires ListOk() && b in size && size[b] >= 1 && b > base && forall u | In(b, size[b], u) :: !Covered(free, u)
      modifies `ptr, `size, `freep, `free
      ensures ListOk()
      ensures forall u :: Covered(free, u) <==> old(Covered(free, u)) || In(b, old(size[b]), u)
      ensures forall a | a in old(size) && a !in old(free) && a != b :: a in size && size[a] == old(size[a])
      ensures exists a :: a in free && free[a] >= old(size[b])
    {
      ghost var n, f, t := size[b], free, ptr;
      var p := Place(b);
      var q := ptr[p];
      Splice(p, q, b);
      InsertOk(base, f, p, q, b, n);
      InsertRing(base, f, t, p, q, b, n);
      forall u
        ensures Covered(free, u) <==> Covered(f, u) || In(b, n, u)
      {
        InsertCovers(base, f, p, q, b, n, u);
      }
    }

    /** The pointer work: b goes between p and q, joining those it touches. */
    method Splice(p: int, q: int, b: int)
      requires p in free && p in ptr && ptr[p] == q && q in free && q in ptr && b in size && Fits(base, free, p, q, b, size[b])
      requires b !in free && forall a | a in free :: a in size && size[a] == free[a]
      modifies `ptr, `size, `freep, `free
      ensures freep == p && p in free && free == Insert(old(free), p, q, b, old(size[b]))
      ensures ptr == Linked(old(free), old(ptr), p, q, b, old(size[b]))
      ensures forall a | a in free :: a in size && size[a] == free[a]
      ensures forall a | a in old(size) && a !in old(free) && a != b :: a in size && size[a] == old(size[a])
      ensures exists a :: a in free && free[a] >= old(size[b])
    {
      ghost var n, m := size[b], free;
      if b + size[b] == q {
        size := size[b := size[b] + size[q]];
        ptr := ptr[b := ptr[q]];
      } else {
        ptr := ptr[b := q];
      }
      if p + size[p] == b {
        size := size[p := size[p] + size[b]];
        ptr := ptr[p := ptr[b]];
      } else {
        ptr := ptr[p := b];
      }
      freep := p;
      free := Insert(m, p, q, b, n);
      assert if JoinsDown(m, p, b) then p in free && free[p] >= n else b in free && free[b] >= n;
    }

    /** free(ap). */
    method Free(ap: int)
      requires Valid() && ap - 1 in live
      modifies this
      ensures Valid() && live == old(live) - {ap - 1} && heap == old(heap) && sz == old(sz)
    {
      var bp := ap - 1;
      forall a | a in live
        ensures a !in free
      {
        LiveNotFree(base, free, live, heap, a);
      }
      LiveNotFree(base, free, live, heap, bp);
      ghost var f := free;
      Link(bp);
      FreeKeepsPartition(base, f, live, heap, bp, free);
      live := live - {bp};
    }

    /** morecore. Where sbrk gives fewer bytes than the header it is told to put there
        says, the free list has units with no memory behind them. */
    method Morecore(nu: int, avail: bool) returns (hp: int)
      requires Valid() && Backed() && freep != NULL && nu >= 1
      modifies this
      ensures Valid() && live == old(live) && freep != NULL && sz < KERNBASE
      ensures var (p, sz') := Sbrk(old(sz), CoreBytes(nu), avail);
              && sz == sz'
              && (if p == SBRK_FAILED then hp == NULL && heap == old(heap)
                  else && hp == freep && (exists a :: a in free && free[a] >= nu)
                       && heap == old(heap) + Region(p / HEADER, Core(nu)))
      ensures CoreBytes(nu) == Core(nu) * HEADER ==> Backed()
    {
      var n := if nu < MINUNITS then MINUNITS else nu;
      var w := n * HEADER % WORD_LIMIT;
      var (p, sz') := Sbrk(sz, if w < INT_LIMIT then w else w - WORD_LIMIT, avail);
      sz := sz';
      if p == SBRK_FAILED {
        return NULL;
      }
      AddCore(p / HEADER, n);
      hp := freep;
    }

    /** The region sbrk is said to have given joins the free list. */
    method AddCore(b: int, n: int)
      requires Valid() && freep != NULL && n >= 1 && b > base && forall u | In(b, n, u) :: u !in heap
      modifies `ptr, `size, `freep, `free, `heap
      ensures Valid() && freep != NULL && heap == old(heap) + Region(b, n)
      ensures exists a :: a in free && free[a] >= n
    {
      assert forall u | In(b, n, u) :: !Covered(free, u);
      ApartNotFree(base, free, b, n);
      forall a | a in live
        ensures a !in free && a != b
      {
        LiveNotFree(base, free, live, heap, a);
        assert In(a, live[a], a) && In(b, n, b);
        assert a in heap;
      }
      size := size[b := n];
      ghost var f := free;
      Link(b);
      ghost var h := heap + Region(b, n);
      assert forall u :: u in h <==> u in heap || In(b, n, u);
      CoreKeepsPartition(base, f, live, heap, b, n, free, h);
      heap := h;
    }

    /** malloc; cores counts its calls of morecore. The block it returns is in memory
        and large enough if and only if the request is within the bound. */
    method Malloc(nbytes: int, avail: bool) returns (r: int, ghost cores: nat)
      requires Valid() && Backed() && 0 <= nbytes < WORD_LIMIT
      modifies this
      ensures Valid() && cores <= 1
      ensures r == NULL ==> live == old(live) && Sbrk(old(sz), CoreBytes(Units(nbytes)), avail).0 == SBRK_FAILED
      ensures r != NULL ==> r - 1 !in old(live) && live == old(live)[r - 1 := Units(nbytes)]
      ensures r != NULL ==> (Served(r - 1, nbytes) <==> nbytes <= MAXREQUEST)
      ensures nbytes <= MAXREQUEST ==> Backed()
    {
      UnitsEnough(nbytes);
      RequestBound(nbytes);
      var nunits := Units(nbytes);
      if freep == NULL {
        ptr, size, freep := ptr[base := base], size[base := 0], base;
        free := map[base := 0];
        assert RingAt(base, free, ptr, base);
      }
      r, cores := Search(nunits, avail);
      if r != NULL {
        if nbytes <= MAXREQUEST {
          LiveInHeap(base, free, live, heap, r - 1);
        } else if nbytes + HEADER - 1 < WORD_LIMIT {
          assert In(r - 1, nunits, r - 1 + nunits - 1);
        }
      }
    }

    /** morecore, and the search about to start again behind the block it gives. */
    method Refill(nunits: int, avail: bool) returns (p: int)
      requires Valid() && Backed() && freep != NULL && nunits >= 1
      modifies this
      ensures Valid() && live == old(live) && freep != NULL && sz < KERNBASE
      ensures p == NULL ==> Sbrk(old(sz), CoreBytes(nunits), avail).0 == SBRK_FAILED
      ensures p != NULL ==> p in free && p in ptr && ptr[p] in free && AllSmall(free, freep, ptr[p], nunits)
                            && exists a :: a in free && free[a] >= nunits
      ensures CoreBytes(nunits) == Core(nunits) * HEADER ==> Backed()
    {
      p := Morecore(nunits, avail);
      if p != NULL {
        assert RingAt(base, free, ptr, p);
        PassedNone(base, free, freep, ptr[p]);
      }
    }

    /** malloc's loop. */
    method Search(nunits: int, avail: bool) returns (r: int, ghost cores: nat)
      requires Valid() && Backed() && freep != NULL && nunits >= 1
      modifies this
      ensures Valid() && cores <= 1 && sz < KERNBASE
      ensures r == NULL ==> live == old(live) && Sbrk(old(sz), CoreBytes(nunits), avail).0 == SBRK_FAILED
      ensures r != NULL ==> r - 1 > base && r - 1 !in old(live) && live == old(live)[r - 1 := nunits]
      ensures CoreBytes(nunits) == Core(nunits) * HEADER ==> Backed()
    {
      cores := 0;
      ghost var top := Top(free.Keys);
      var prevp := freep;
      assert RingAt(base, free, ptr, prevp);
      var p := ptr[prevp];
      PassedNone(base, free, freep, p);
      while true
        invariant Valid() && freep != NULL && live == old(live) && cores <= 1 && sz < KERNBASE
        invariant p in free && prevp in free && prevp in ptr && ptr[prevp] == p && forall a | a in free :: a <= top
        invariant AllSmall(free, freep, p, nunits)
        invariant cores == 1 ==> exists a :: a in free && free[a] >= nunits
        invariant cores == 0 ==> Backed() && sz == old(sz)
        invariant CoreBytes(nunits) == Core(nunits) * HEADER ==> Backed()
        decreases 1 - cores, Ahead(base, top, p, freep + 1)
      {
        if size[p] >= nunits {
          r := Carve(prevp, p, nunits);
          return;
        }
        assert RingAt(base, free, ptr, p);
        if p == freep {
          NoneLeft(free, p, nunits);
          p := Refill(nunits, avail);
          cores := 1;
          if p == NULL {
            return NULL, cores;
          }
          top := Top(free.Keys);
        } else {
          PassedOne(base, free, freep, p, ptr[p], nunits);
        }
        prevp := p;
        p := ptr[p];
      }
    }

    /** The block found: all of p unlinked, or its tail cut off. */
    method Carve(prevp: int, p: int, nunits: int) returns (r: int)
      requires Valid() && freep != NULL && prevp in free && p in free && prevp in ptr && ptr[prevp] == p
      requires 1 <= nunits <= free[p]
      modifies `ptr, `size, `freep, `free, `live
      ensures Valid() && freep != NULL
      ensures r != NULL && r - 1 > base && r - 1 !in old(live) && live == old(live)[r - 1 := nunits]
    {
      if size[p] == nunits {
        r := TakeAll(prevp, p, nunits);
      } else {
        r := TakeTail(prevp, p, nunits);
      }
    }

    method TakeAll(prevp: int, p: int, nunits: int) returns (r: int)
      requires Valid() && freep != NULL && prevp in free && p in free && prevp in ptr && ptr[prevp] == p
      requires 1 <= nunits == free[p]
      modifies `ptr, `size, `freep, `free, `live
      ensures Valid() && freep != NULL
      ensures r != NULL && r - 1 > base && r - 1 !in old(live) && live == old(live)[r - 1 := nunits]
    {
      CarveKeeps(base, free, live, heap, p, nunits);
      UnlinkRing(base, free, ptr, prevp, p);
      ptr := ptr[prevp := ptr[p]];
      freep := prevp;
      free := Remove(free, p, nunits);
      live := live[p := nunits];
      r := p + 1;
    }

    method TakeTail(prevp: int, p: int, nunits: int) returns (r: int)
      requires Valid() && freep != NULL && prevp in free && p in free && prevp in ptr && ptr[prevp] == p
      requires 1 <= nunits < free[p]
      modifies `ptr, `size, `freep, `free, `live
      ensures Valid() && freep != NULL
      ensures r != NULL && r - 1 > base && r - 1 !in old(live) && live == old(live)[r - 1 := nunits]
    {
      CarveKeeps(base, free, live, heap, p, nunits);
      ShrinkRing(base, free, ptr, Remove(free, p, nunits));
      size := size[p := size[p] - nunits];
      var q := p + size[p];
      size := size[q := nunits];
      freep := prevp;
      free := Remove(free, p, nunits);
      live := live[q := nunits];
      r := q + 1;
    }
  }
}
