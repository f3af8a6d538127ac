/** The code of bio.c: buffers on a doubly linked ring through a head, scanned and
    relinked in place, proved against the list functions of CacheMachine. */
module Bio {
  import opened Basics
  import opened Words
  import opened CacheMachine

  // ---- the ring ----

  /** The ring read from the head round to the head. */
  function Cycle(order: seq<nat>, head: nat): (c: seq<nat>)
    ensures |c| == |order| + 2
  {
    [head] + order + [head]
  }

  /** next and prev are mutually inverse along `order`. */
  ghost predicate Linked(next: seq<nat>, prev: seq<nat>, order: seq<nat>, head: nat) {
    && |next| == |prev| == head + 1
    && NoRepeats(order)
    && (forall i | 0 <= i < |order| :: order[i] < head)
    && var c := Cycle(order, head);
       forall i, j | 0 <= i <= |order| && j == i + 1 :: next[c[i]] == c[j] && prev[c[j]] == c[i]
  }

  function Cut(order: seq<nat>, k: nat): (r: seq<nat>)
    requires k < |order|
  {
    order[..k] + order[k + 1..]
  }

  lemma UnlinkLinked(next: seq<nat>, prev: seq<nat>, order: seq<nat>, head: nat, k: nat)
    requires Linked(next, prev, order, head) && k < |order|
    ensures var b := order[k];
            && prev[b] <= head && next[b] <= head
            && Linked(next[prev[b] := next[b]], prev[next[b] := prev[b]], Cut(order, k), head)
  {
    var b := order[k];
    var c := Cycle(order, head);
    assert c[k + 1] == b;
    assert next[c[k + 1]] == c[k + 2] && prev[c[k + 1]] == c[k];
    var q := Cut(order, k);
    var d := Cycle(q, head);
    var next', prev' := next[c[k] := c[k + 2]], prev[c[k + 2] := c[k]];
    forall i | 0 <= i < |q|
      ensures q[i] == order[if i < k then i else i + 1]
    {
    }
    forall i | 0 <= i < |d|
      ensures d[i] == c[if i <= k then i else i + 1]
    {
    }
    forall i, j | 0 <= i <= |q| && j == i + 1
      ensures next'[d[i]] == d[j] && prev'[d[j]] == d[i]
    {
      CycleDistinct(order, head, k, if i <= k then i else i + 1);
      CycleDistinct(order, head, k + 2, if i + 1 <= k then i + 1 else i + 2);
    }
  }

  /** Equal entries of the cycle are the same place, but for the two ends. */
  lemma CycleDistinct(order: seq<nat>, head: nat, i: nat, j: nat)
    requires NoRepeats(order) && (forall x | 0 <= x < |order| :: order[x] < head)
    requires i < |order| + 2 && j < |order| + 2
    ensures var c := Cycle(order, head);
            c[i] == c[j] ==> i == j || (i == 0 && j == |order| + 1) || (j == 0 && i == |order| + 1)
  {
  }

  lemma CycleAt(order: seq<nat>, head: nat, i: nat)
    requires i < |order| + 2 && forall x | 0 <= x < |order| :: order[x] < head
    ensures Cycle(order, head)[i] == head <==> i == 0 || i == |order| + 1
    ensures 1 <= i <= |order| ==> Cycle(order, head)[i] == order[i - 1]
  {
  }

  lemma InsertLinked(next: seq<nat>, prev: seq<nat>, order: seq<nat>, head: nat, b: nat)
    requires Linked(next, prev, order, head) && b < head && b !in order
    ensures var f := next[head];
            && f <= head
            && Linked(next[b := f][head := b], prev[b := head][f := b], [b] + order, head)
  {
    var c := Cycle(order, head);
    assert c[0] == head && next[c[0]] == c[1];
    var f := c[1];
    var q := [b] + order;
    var d := Cycle(q, head);
    var next', prev' := next[b := f][head := b], prev[b := head][f := b];
    forall i | 1 <= i < |d|
      ensures i >= 2 ==> d[i] == c[i - 1]
    {
    }
    assert d[0] == head && d[1] == b;
    forall i, j | 0 <= i <= |q| && j == i + 1
      ensures next'[d[i]] == d[j] && prev'[d[j]] == d[i]
    {
      if i >= 2 {
        CycleDistinct(order, head, i - 1, 0);
        CycleDistinct(order, head, i, 1);
      }
    }
  }

  lemma {:induction false} WithoutAt(order: seq<nat>, k: nat)
    requires NoRepeats(order) && k < |order|
    ensures Without(order, order[k]) == Cut(order, k)
  {
    if k == 0 {
      WithoutAbsent(order[1..], order[0]);
      assert Cut(order, 0) == order[1..];
    } else {
      var rest := order[1..];
      assert rest[k - 1] == order[k];
      WithoutAt(rest, k - 1);
      assert Cut(order, k) == [order[0]] + Cut(rest, k - 1);
    }
  }

  lemma {:induction false} WithoutAbsent(order: seq<nat>, b: nat)
    requires b !in order
    ensures Without(order, b) == order
  {
    if order != [] {
      WithoutAbsent(order[1..], b);
    }
  }

  // ---- the scans, by position ----

  lemma {:induction false} FindAt(bufs: seq<Buf>, order: seq<nat>, key: Key, i: nat)
    requires InRange(bufs, order) && i <= |order|
    requires forall j | 0 <= j < i :: bufs[order[j]].key != key
    requires i < |order| ==> bufs[order[i]].key == key
    ensures Find(bufs, order, key) == if i < |order| then Some(order[i]) else None
  {
    if i > 0 {
      FindAt(bufs, order[1..], key, i - 1);
    }
  }

  lemma {:induction false} VictimAt(bufs: seq<Buf>, order: seq<nat>, i: int)
    requires InRange(bufs, order) && -1 <= i < |order|
    requires forall j | i < j < |order| :: !Recyclable(bufs[order[j]])
    requires i >= 0 ==> Recyclable(bufs[order[i]])
    ensures Victim(bufs, order) == if i >= 0 then Some(order[i]) else None
  {
    if i < |order| - 1 {
      VictimAt(bufs, order[..|order| - 1], i);
    }
  }

  /** Buffers are indices below nbuf; index nbuf is bcache.head. */
  class BufferCache {
    const nbuf: nat
    const bufs: array<Buf>
    const next: array<nat>
    const prev: array<nat>
    ghost var order: seq<nat>

    ghost predicate Valid()
      reads this, bufs, next, prev
    {
      && bufs.Length == nbuf && next.Length == nbuf + 1 && prev.Length == nbuf + 1
      && next != prev
      && Linked(next[..], prev[..], order, nbuf)
    }

    /** binit: link every buffer in at the front. */
    constructor (n: nat)
      ensures Valid() && fresh(bufs) && fresh(next) && fresh(prev) && nbuf == n
      ensures order == InitialOrder(n)
      ensures forall i | 0 <= i < n :: bufs[i] == Buf(Key(0, 0), false, false, 0, ZeroBlock())
    {
      nbuf := n;
      bufs := new Buf[n](i => Buf(Key(0, 0), false, false, 0, ZeroBlock()));
      next := new nat[n + 1](i => 0);
      prev := new nat[n + 1](i => 0);
      order := [];
      new;
      next[n] := n;
      prev[n] := n;
      var b := 0;
      while b < n
        invariant b <= n && Valid() && order == InitialOrder(b)
        invariant forall i | 0 <= i < n :: bufs[i] == Buf(Key(0, 0), false, false, 0, ZeroBlock())
      {
        InsertFront(b);
        b := b + 1;
      }
    }

    method InsertFront(b: nat)
      requires Valid() && b < nbuf && b !in order
      modifies next, prev, this`order
      ensures Valid() && order == [b] + old(order)
    {
      InsertLinked(next[..], prev[..], order, nbuf, b);
      var head := nbuf;
      next[b] := next[head];
      prev[b] := head;
      prev[next[head]] := b;
      next[head] := b;
      order := [b] + order;
      assert next[..] == old(next[..])[b := old(next[head])][head := b];
      assert prev[..] == old(prev[..])[b := head][old(next[head]) := b];
    }

    method Unlink(b: nat, ghost k: nat)
      requires Valid() && k < |order| && order[k] == b
      modifies next, prev, this`order
      ensures Valid() && order == Cut(old(order), k)
    {
      UnlinkLinked(next[..], prev[..], order, nbuf, k);
      prev[next[b]] := prev[b];
      next[prev[b]] := next[b];
      order := Cut(order, k);
      assert next[..] == old(next[..])[old(prev[b]) := old(next[b])];
      assert prev[..] == old(prev[..])[old(next[b]) := old(prev[b])];
    }

    /** The forward scan of bget. */
    method Lookup(key: Key) returns (r: Option<nat>)
      requires Valid() && InRange(bufs[..], order)
      ensures r == Find(bufs[..], order, key)
    {
      ghost var s := bufs[..];
      var head := nbuf;
      ghost var c := Cycle(order, head);
      CycleAt(order, head, 0);
      var b := next[head];
      ghost var i := 0;
      while b != head
        invariant i <= |order| && b == c[i + 1]
        invariant forall j | 0 <= j < i :: s[order[j]].key != key
        decreases |order| - i
      {
        CycleAt(order, head, i + 1);
        if bufs[b].key == key {
          FindAt(s, order, key, i);
          return Some(b);
        }
        assert next[c[i + 1]] == c[i + 2];
        b := next[b];
        i := i + 1;
      }
      CycleAt(order, head, i + 1);
      FindAt(s, order, key, i);
      r := None;
    }

    /** The backward scan of bget. */
    method LeastRecent() returns (r: Option<nat>)
      requires Valid() && InRange(bufs[..], order)
      ensures r == Victim(bufs[..], order)
    {
      ghost var s := bufs[..];
      var head := nbuf;
      ghost var c := Cycle(order, head);
      ghost var i := |order|;
      CycleAt(order, head, i + 1);
      var b := prev[head];
      while b != head
        invariant 0 <= i <= |order| && b == c[i]
        invariant forall j | i <= j < |order| :: !Recyclable(s[order[j]])
        decreases i
      {
        CycleAt(order, head, i);
        if bufs[b].refcnt == 0 && !bufs[b].dirty {
          VictimAt(s, order, i - 1);
          return Some(b);
        }
        ghost var k := i - 1;
        assert prev[c[i]] == c[k];
        b := prev[b];
        i := k;
      }
      CycleAt(order, head, i);
      VictimAt(s, order, -1);
      r := None;
    }

    /** bget's critical section: the cached buffer, or the least recently used one
        that can be recycled, or the panic. */
    method Bget(key: Key) returns (r: Option<nat>)
      requires Valid() && InRange(bufs[..], order)
      modifies bufs
      ensures Valid()
      ensures var was := old(bufs[..]);
              match Find(was, order, key)
              case Some(b) => r == Some(b) && bufs[..] == was[b := was[b].(refcnt := was[b].refcnt + 1)]
              case None =>
                && r == Victim(was, order)
                && (r.None? ==> bufs[..] == was)
                && (r.Some? ==> bufs[..] == was[r.value := Buf(key, false, false, 1, was[r.value].data)])
    {
      ghost var was := bufs[..];
      var hit := Lookup(key);
      if hit.Some? {
        bufs[hit.value] := bufs[hit.value].(refcnt := bufs[hit.value].refcnt + 1);
        r := hit;
        assert bufs[..] == was[hit.value := was[hit.value].(refcnt := was[hit.value].refcnt + 1)];
      } else {
        r := LeastRecent();
        if r.Some? {
          bufs[r.value] := Buf(key, false, false, 1, bufs[r.value].data);
          assert bufs[..] == was[r.value := Buf(key, false, false, 1, was[r.value].data)];
        }
      }
    }

    /** brelse's critical section: drop a reference, and on the last one move the
        buffer to the front of the list. */
    method Brelse(b: nat)
      requires Valid() && b < nbuf && b in order && bufs[b].refcnt > 0
      modifies bufs, next, prev, this`order
      ensures Valid()
      ensures bufs[..] == old(bufs[..])[b := old(bufs[b]).(refcnt := old(bufs[b]).refcnt - 1)]
      ensures order == if old(bufs[b]).refcnt == 1 then ToFront(old(order), b) else old(order)
    {
      bufs[b] := bufs[b].(refcnt := bufs[b].refcnt - 1);
      if bufs[b].refcnt == 0 {
        ghost var k :| 0 <= k < |order| && order[k] == b;
        WithoutAt(order, k);
        Unlink(b, k);
        InsertFront(b);
      }
    }
  }
}
