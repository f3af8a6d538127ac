/** The buffer cache keeps one buffer per block, never gives up a pinned buffer, and
    always shows the latest contents, in every run. */
module CacheProofs {
  import opened Basics
  import opened Words
  import opened CacheMachine

  // ---- reference counts ----

  lemma {:induction false} RefsUpdate(users: seq<User>, u: nat, x: User, b: nat)
    requires u < |users|
    ensures Refs(users[u := x], b) == Refs(users, b) - Uses(users[u], b) + Uses(x, b)
  {
    if u == 0 {
      assert users[0 := x][1..] == users[1..];
    } else {
      assert users[u := x][1..] == users[1..][u - 1 := x];
      RefsUpdate(users[1..], u - 1, x, b);
    }
  }

  lemma {:induction false} RefsAtLeast(users: seq<User>, u: nat, b: nat)
    requires u < |users| && Uses(users[u], b) == 1
    ensures Refs(users, b) >= 1
  {
    if u > 0 {
      RefsAtLeast(users[1..], u - 1, b);
    }
  }

  /** A buffer with no references has no user at all. */
  lemma NoUsers(s: State, b: nat)
    requires RefsInv(s) && b < |s.bufs| && s.bufs[b].refcnt == 0
    ensures forall u | 0 <= u < |s.users| && !s.users[u].Idle? :: s.users[u].buf != b
  {
    forall u | 0 <= u < |s.users| && !s.users[u].Idle?
      ensures s.users[u].buf != b
    {
      if s.users[u].buf == b {
        RefsAtLeast(s.users, u, b);
      }
    }
  }

  /** Swapping one user for another moves the counts accordingly. */
  lemma UserMoves(s: State, u: nat, x: User, r: State)
    requires RefsInv(s) && u < |s.users| && r.users == s.users[u := x] && |r.bufs| == |s.bufs|
    requires forall b | 0 <= b < |s.bufs| ::
      r.bufs[b].refcnt == s.bufs[b].refcnt - Uses(s.users[u], b) + Uses(x, b)
    ensures forall b | 0 <= b < |r.bufs| :: r.bufs[b].refcnt == Refs(r.users, b)
  {
    forall b | 0 <= b < |r.bufs|
      ensures r.bufs[b].refcnt == Refs(r.users, b)
    {
      RefsUpdate(s.users, u, x, b);
    }
  }

  // ---- Get ----

  lemma AllListed(s: State, b: nat)
    requires Ring(s) && b < |s.bufs|
    ensures exists i :: 0 <= i < |s.order| && s.order[i] == b
  {
    assert b in multiset(s.order);
  }

  lemma NotFound(s: State, key: Key)
    requires Ring(s) && Find(s.bufs, s.order, key).None?
    ensures Uncached(s, key)
  {
    forall b | 0 <= b < |s.bufs|
      ensures s.bufs[b].key != key
    {
      AllListed(s, b);
    }
  }

  lemma SameKeysUnique(a: seq<Buf>, b: seq<Buf>)
    requires Unique(a) && |a| == |b| && forall i | 0 <= i < |a| :: b[i].key == a[i].key
    ensures Unique(b)
  {
  }

  lemma HitKeepsRefs(s: State, u: nat, b: nat, r: State)
    requires RefsInv(s) && u < |s.users| && s.users[u].Idle? && b < |s.bufs| && s.bufs[b].key.dev != 0
    requires r == s.(bufs := s.bufs[b := s.bufs[b].(refcnt := s.bufs[b].refcnt + 1)],
                     users := s.users[u := Waiting(b)])
    ensures RefsInv(r)
  {
    UserMoves(s, u, Waiting(b), r);
  }

  lemma HitKeepsInv(s: State, u: nat, b: nat, r: State)
    requires Inv(s) && u < |s.users| && s.users[u].Idle? && b < |s.bufs| && s.bufs[b].key.dev != 0
    requires r == s.(bufs := s.bufs[b := s.bufs[b].(refcnt := s.bufs[b].refcnt + 1)],
                     users := s.users[u := Waiting(b)])
    ensures Inv(r)
  {
    HitKeepsRefs(s, u, b, r);
    SameKeysUnique(s.bufs, r.bufs);
    SameDataKeeps(s, r);
  }

  /** Steps that change neither keys, contents nor flags. */
  lemma SameDataKeeps(s: State, r: State)
    requires DataInv(s) && r.disk == s.disk && r.logical == s.logical
    requires |r.bufs| == |s.bufs| && |r.users| == |s.users|
    requires forall b | 0 <= b < |s.bufs| ::
      r.bufs[b].key == s.bufs[b].key && r.bufs[b].valid == s.bufs[b].valid
      && r.bufs[b].dirty == s.bufs[b].dirty && r.bufs[b].data == s.bufs[b].data
    requires forall u | 0 <= u < |s.users| ::
      (r.users[u].Held? && r.users[u].modified) == (s.users[u].Held? && s.users[u].modified)
      && (s.users[u].Held? && s.users[u].modified ==> r.users[u].buf == s.users[u].buf)
    ensures DataInv(r)
  {
    forall b | 0 <= b < |r.bufs|
      ensures Clean(r, b) ==> Clean(s, b)
    {
      if Clean(r, b) {
        forall u | 0 <= u < |s.users|
          ensures s.users[u] != Held(b, true)
        {
          assert r.users[u] != Held(b, true);
        }
      }
    }
    forall k | k in r.disk && k.dev != 0 && Uncached(r, k)
      ensures r.disk[k] == r.logical[k]
    {
      assert forall b | 0 <= b < |s.bufs| :: r.bufs[b].key != k;
      assert Uncached(s, k);
    }
  }

  lemma MissKeepsData(s: State, u: nat, b: nat, key: Key, r: State)
    requires Inv(s) && u < |s.users| && s.users[u].Idle? && b < |s.bufs| && Recyclable(s.bufs[b])
    requires key.dev != 0 && key in s.disk && Uncached(s, key)
    requires r == s.(bufs := s.bufs[b := Buf(key, false, false, 1, s.bufs[b].data)],
                     users := s.users[u := Waiting(b)])
    ensures DataInv(r)
  {
    NoUsers(s, b);
    assert Clean(s, b);
    assert s.disk[key] == s.logical[key];
    forall c | 0 <= c < |r.bufs| && r.bufs[c].key.dev != 0 && Clean(r, c)
      ensures r.disk[r.bufs[c].key] == r.logical[r.bufs[c].key]
    {
      if c != b {
        forall v | 0 <= v < |s.users|
          ensures s.users[v] != Held(c, true)
        {
          assert r.users[v] != Held(c, true);
        }
        assert Clean(s, c);
      }
    }
    forall k | k in r.disk && k.dev != 0 && Uncached(r, k)
      ensures r.disk[k] == r.logical[k]
    {
      if k != s.bufs[b].key {
        forall c | 0 <= c < |s.bufs|
          ensures s.bufs[c].key != k
        {
          assert r.bufs[c].key != k;
        }
        assert Uncached(s, k);
      }
    }
  }

  lemma MissKeepsRefs(s: State, u: nat, b: nat, key: Key, r: State)
    requires RefsInv(s) && u < |s.users| && s.users[u].Idle? && b < |s.bufs| && s.bufs[b].refcnt == 0 && key.dev != 0
    requires r == s.(bufs := s.bufs[b := Buf(key, false, false, 1, s.bufs[b].data)],
                     users := s.users[u := Waiting(b)])
    ensures RefsInv(r)
  {
    UserMoves(s, u, Waiting(b), r);
    NoUsers(s, b);
  }

  lemma NewKeyUnique(s: State, b: nat, x: Buf)
    requires Unique(s.bufs) && b < |s.bufs| && Uncached(s, x.key)
    ensures Unique(s.bufs[b := x])
  {
    var r := s.bufs[b := x];
    forall i, j | 0 <= i < |r| && 0 <= j < |r| && r[i].key.dev != 0 && r[i].key == r[j].key
      ensures i == j
    {
      if i != b && j != b {
        assert s.bufs[i].key == s.bufs[j].key;
      }
    }
  }

  lemma MissKeepsInv(s: State, u: nat, b: nat, key: Key, r: State)
    requires Inv(s) && u < |s.users| && s.users[u].Idle? && b < |s.bufs| && Recyclable(s.bufs[b])
    requires key.dev != 0 && key in s.disk && Uncached(s, key)
    requires r == s.(bufs := s.bufs[b := Buf(key, false, false, 1, s.bufs[b].data)],
                     users := s.users[u := Waiting(b)])
    ensures Inv(r)
  {
    MissKeepsRefs(s, u, b, key, r);
    MissKeepsData(s, u, b, key, r);
    NewKeyUnique(s, b, Buf(key, false, false, 1, s.bufs[b].data));
  }

  lemma GetKeepsInv(s: State, u: nat, key: Key, r: State)
    requires Inv(s) && CanGet(s, u, key) && r == GetStep(s, u, key)
    ensures Inv(r)
  {
    match Find(s.bufs, s.order, key)
    case Some(b) => HitKeepsInv(s, u, b, r);
    case None =>
      NotFound(s, key);
      match Victim(s.bufs, s.order)
      case Some(b) => MissKeepsInv(s, u, b, key, r);
      case None => SameDataKeeps(s, r);
  }

  // ---- using a buffer ----

  lemma LockKeepsInv(s: State, u: nat, r: State)
    requires Inv(s) && CanLock(s, u) && r == LockStep(s, u)
    ensures Inv(r)
  {
    UserMoves(s, u, Held(s.users[u].buf, false), r);
    SameDataKeeps(s, r);
  }

  lemma UnlockKeepsInv(s: State, u: nat, r: State)
    requires Inv(s) && CanUnlock(s, u) && r == UnlockStep(s, u)
    ensures Inv(r)
  {
    UserMoves(s, u, Releasing(s.users[u].buf), r);
    SameDataKeeps(s, r);
  }

  /** A step of the holder of buffer b changes only b's contents and flags. */
  ghost predicate HolderStep(s: State, u: nat, r: State) {
    && CanUse(s, u) && |r.users| == |s.users| && |r.bufs| == |s.bufs| && r.order == s.order
    && r.users == s.users[u := Held(s.users[u].buf, r.users[u].Held? && r.users[u].modified)]
    && (forall c | 0 <= c < |s.bufs| && c != s.users[u].buf :: r.bufs[c] == s.bufs[c])
    && r.bufs[s.users[u].buf].key == s.bufs[s.users[u].buf].key
    && r.bufs[s.users[u].buf].refcnt == s.bufs[s.users[u].buf].refcnt
  }

  lemma HolderKeepsShape(s: State, u: nat, r: State)
    requires Ring(s) && Unique(s.bufs) && RefsInv(s) && |r.users| == |s.users| && u < |s.users| && HolderStep(s, u, r)
    ensures Ring(r) && Unique(r.bufs) && RefsInv(r)
  {
    UserMoves(s, u, r.users[u], r);
    assert forall c | 0 <= c < |r.bufs| :: r.bufs[c].key == s.bufs[c].key;
  }

  /** The blocks other than the holder's: nothing about them has changed. */
  lemma OthersKeep(s: State, u: nat, r: State)
    requires Unique(s.bufs) && DataInv(s) && |r.users| == |s.users| && u < |s.users| && HolderStep(s, u, r)
    requires s.bufs[s.users[u].buf].key.dev != 0
    requires var k := s.bufs[s.users[u].buf].key;
             && r.disk.Keys == s.disk.Keys && r.logical.Keys == s.logical.Keys
             && (forall x | x in s.disk && x != k :: r.disk[x] == s.disk[x] && r.logical[x] == s.logical[x])
    requires var b := s.users[u].buf;
             && (r.bufs[b].valid ==> r.bufs[b].data == r.logical[r.bufs[b].key])
             && (Clean(r, b) ==> r.disk[r.bufs[b].key] == r.logical[r.bufs[b].key])
             && (r.bufs[b].dirty || r.users[u].modified ==> r.bufs[b].valid)
    requires forall v | 0 <= v < |s.users| && v != u && s.users[v].Held? :: s.users[v].buf != s.users[u].buf
    ensures DataInv(r)
  {
    var b := s.users[u].buf;
    forall c | 0 <= c < |r.bufs| && c != b
      ensures Clean(r, c) ==> Clean(s, c)
      ensures r.bufs[c].key.dev != 0 ==> r.bufs[c].key != s.bufs[b].key
    {
      if Clean(r, c) {
        forall v | 0 <= v < |s.users|
          ensures s.users[v] != Held(c, true)
        {
          assert r.users[v] != Held(c, true);
        }
      }
    }
    forall k | k in r.disk && k.dev != 0 && Uncached(r, k)
      ensures r.disk[k] == r.logical[k]
    {
      assert r.bufs[b].key != k;
      forall c | 0 <= c < |s.bufs|
        ensures s.bufs[c].key != k
      {
        assert r.bufs[c].key != k;
      }
      assert Uncached(s, k);
    }
  }

  lemma AloneHolding(s: State, u: nat)
    requires RefsInv(s) && u < |s.users| && s.users[u].Held?
    ensures forall v | 0 <= v < |s.users| && v != u && s.users[v].Held? :: s.users[v].buf != s.users[u].buf
  {
  }

  lemma FillKeepsInv(s: State, u: nat, r: State)
    requires Inv(s) && CanUse(s, u) && !s.bufs[s.users[u].buf].valid && r == FillStep(s, u)
    ensures Inv(r)
  {
    var b := s.users[u].buf;
    assert !s.users[u].modified;
    assert r.users == s.users[u := Held(b, false)];
    AloneHolding(s, u);
    HolderKeepsShape(s, u, r);
    assert Clean(s, b);
    OthersKeep(s, u, r);
  }

  lemma ModifyKeepsInv(s: State, u: nat, data: Block, r: State)
    requires Inv(s) && CanUse(s, u) && s.bufs[s.users[u].buf].valid && r == ModifyStep(s, u, data)
    ensures Inv(r)
  {
    AloneHolding(s, u);
    HolderKeepsShape(s, u, r);
    assert r.users[u] == Held(s.users[u].buf, true);
    OthersKeep(s, u, r);
  }

  lemma PinKeepsInv(s: State, u: nat, r: State)
    requires Inv(s) && CanUse(s, u) && s.bufs[s.users[u].buf].valid && r == PinStep(s, u)
    ensures Inv(r)
  {
    AloneHolding(s, u);
    HolderKeepsShape(s, u, r);
    OthersKeep(s, u, r);
  }

  lemma WriteBackKeepsInv(s: State, u: nat, r: State)
    requires Inv(s) && CanUse(s, u) && s.bufs[s.users[u].buf].valid && r == WriteBackStep(s, u)
    ensures Inv(r)
  {
    AloneHolding(s, u);
    HolderKeepsShape(s, u, r);
    OthersKeep(s, u, r);
  }

  lemma DropKeepsRefs(s: State, u: nat, r: State)
    requires RefsInv(s) && CanDrop(s, u) && r == DropStep(s, u)
    ensures RefsInv(r)
  {
    UserMoves(s, u, Idle, r);
  }

  lemma DropKeepsInv(s: State, u: nat, r: State)
    requires Inv(s) && CanDrop(s, u) && r == DropStep(s, u)
    ensures Inv(r)
  {
    var b := s.users[u].buf;
    DropKeepsRefs(s, u, r);
    SameDataKeeps(s, r);
    SameKeysUnique(s.bufs, r.bufs);
    if r.bufs[b].refcnt == 0 {
      FrontKeepsRing(s, b, r);
    }
  }

  lemma {:induction false} WithoutCounts(order: seq<nat>, b: nat)
    ensures multiset(Without(order, b))[b] == 0
    ensures |Without(order, b)| == |order| - multiset(order)[b]
    ensures forall x | x != b :: multiset(Without(order, b))[x] == multiset(order)[x]
  {
    if order != [] {
      WithoutCounts(order[1..], b);
      assert order == [order[0]] + order[1..];
    }
  }

  lemma FrontKeepsRing(s: State, b: nat, r: State)
    requires Ring(s) && b < |s.bufs| && |r.bufs| == |s.bufs| && r.order == ToFront(s.order, b)
    ensures Ring(r)
  {
    var w := Without(s.order, b);
    WithoutCounts(s.order, b);
    forall i | 0 <= i < |w|
      ensures w[i] < |s.bufs|
    {
      var x: nat := w[i];
      assert x in multiset(w);
      assert multiset(s.order)[x] == multiset(w)[x] > 0;
      assert x in s.order;
    }
    assert multiset(r.order) == multiset{b} + multiset(w);
  }

  // ---- every run ----

  lemma StepKeepsInv(s: State, e: Event, r: State)
    requires Inv(s) && Enabled(s, e) && r == Next(s, e)
    ensures Inv(r)
  {
    match e
    case Get(u, key) => GetKeepsInv(s, u, key, r);
    case Lock(u) => LockKeepsInv(s, u, r);
    case Fill(u) => FillKeepsInv(s, u, r);
    case Modify(u, data) => ModifyKeepsInv(s, u, data, r);
    case Pin(u) => PinKeepsInv(s, u, r);
    case WriteBack(u) => WriteBackKeepsInv(s, u, r);
    case Unlock(u) => UnlockKeepsInv(s, u, r);
    case Drop(u) => DropKeepsInv(s, u, r);
  }

  lemma {:induction false} RunKeepsInv(s: State, es: seq<Event>)
    requires Inv(s)
    ensures Exec(s, es).Some? ==> Inv(Exec(s, es).value)
    decreases |es|
  {
    if es != [] && Enabled(s, es[0]) {
      var r := Next(s, es[0]);
      StepKeepsInv(s, es[0], r);
      RunKeepsInv(r, es[1..]);
    }
  }

  lemma {:induction false} NobodyUses(users: seq<User>, b: nat)
    requires forall u | 0 <= u < |users| :: users[u].Idle?
    ensures Refs(users, b) == 0
  {
    if users != [] {
      NobodyUses(users[1..], b);
    }
  }

  lemma ConsCount(x: nat, s: seq<nat>, b: nat)
    ensures multiset([x] + s)[b] == multiset(s)[b] + if b == x then 1 else 0
  {
  }

  lemma {:induction false} InitialOrderOnce(n: nat, b: nat)
    ensures multiset(InitialOrder(n))[b] == if b < n then 1 else 0
  {
    if n > 0 {
      InitialOrderOnce(n - 1, b);
      ConsCount(n - 1, InitialOrder(n - 1), b);
    }
  }

  lemma BootInv(nbuf: nat, users: nat, disk: map<Key, Block>)
    ensures Inv(Boot(nbuf, users, disk))
  {
    var s := Boot(nbuf, users, disk);
    forall b | 0 <= b < nbuf
      ensures Refs(s.users, b) == 0 && multiset(InitialOrder(nbuf))[b] == 1
    {
      NobodyUses(s.users, b);
      InitialOrderOnce(nbuf, b);
    }
  }

  /** Cache agreement over every run: whoever has bread a block sees the latest
      contents anyone gave it, no block has two buffers, and the list is still a
      permutation of the buffers. */
  lemma BreadReturnsLatest(nbuf: nat, users: nat, disk: map<Key, Block>, es: seq<Event>, u: nat)
    requires Exec(Boot(nbuf, users, disk), es).Some?
    ensures var s := Exec(Boot(nbuf, users, disk), es).value;
            && Ring(s) && Unique(s.bufs)
            && (u < |s.users| && s.users[u].Held? ==>
                  var b := s.users[u].buf;
                  b < |s.bufs| && (s.bufs[b].valid ==>
                    s.bufs[b].key in s.logical && s.bufs[b].data == s.logical[s.bufs[b].key]))
  {
    BootInv(nbuf, users, disk);
    RunKeepsInv(Boot(nbuf, users, disk), es);
  }

  ghost predicate Pinned(s: State, b: nat, key: Key) {
    b < |s.bufs| && s.bufs[b].dirty && s.bufs[b].key == key
  }

  predicate WritesBack(s: State, e: Event, b: nat) {
    e.WriteBack? && e.u < |s.users| && s.users[e.u].Held? && s.users[e.u].buf == b
  }

  /** Only bwrite of that very buffer (install_trans makes it) ends a pin; until then
      the buffer keeps its block, whatever else is read in. */
  lemma PinHolds(s: State, e: Event, r: State, b: nat, key: Key)
    requires Inv(s) && Enabled(s, e) && r == Next(s, e) && Pinned(s, b, key)
    ensures Pinned(r, b, key) || WritesBack(s, e, b)
  {
    if e.Get? {
      var f := Find(s.bufs, s.order, e.key);
      var v := Victim(s.bufs, s.order);
      assert f.None? && v.Some? ==> v.value != b;
    }
  }

  /** bget gives up exactly when the block is not cached and every buffer is either
      in use or pinned. */
  lemma GetPanicsExactly(s: State, u: nat, key: Key)
    requires Inv(s) && CanGet(s, u, key) && !s.panicked
    ensures GetStep(s, u, key).panicked <==>
              Uncached(s, key) && forall b | 0 <= b < |s.bufs| :: s.bufs[b].refcnt > 0 || s.bufs[b].dirty
  {
    var f := Find(s.bufs, s.order, key);
    if f.None? {
      NotFound(s, key);
      if Victim(s.bufs, s.order).None? {
        forall b | 0 <= b < |s.bufs|
          ensures s.bufs[b].refcnt > 0 || s.bufs[b].dirty
        {
          AllListed(s, b);
        }
      }
    }
  }

  /** Pinned over whole runs: a buffer pinned at the start still holds its block at
      the end unless some step of the run wrote that buffer back. */
  lemma {:induction false} PinHoldsOverRuns(s: State, es: seq<Event>, b: nat, key: Key)
    requires Inv(s) && Pinned(s, b, key) && Exec(s, es).Some?
    requires forall i | 0 <= i < |es| :: Exec(s, es[..i]).Some? ==> !WritesBack(Exec(s, es[..i]).value, es[i], b)
    ensures Pinned(Exec(s, es).value, b, key)
    decreases |es|
  {
    if es != [] {
      var r := Next(s, es[0]);
      StepKeepsInv(s, es[0], r);
      assert Exec(s, es[..0]) == Some(s);
      PinHolds(s, es[0], r, b, key);
      forall i | 0 <= i < |es| - 1
        ensures Exec(r, es[1..][..i]).Some? ==> !WritesBack(Exec(r, es[1..][..i]).value, es[1..][i], b)
      {
        assert es[..i + 1][0] == es[0] && es[..i + 1][1..] == es[1..][..i];
        assert Exec(s, es[..i + 1]) == Exec(r, es[1..][..i]);
      }
      PinHoldsOverRuns(r, es[1..], b, key);
    }
  }

  // ---- when the log pins every buffer ----

  ghost predicate Reach(s: State, r: State) {
    exists es: seq<Event> :: Exec(s, es) == Some(r)
  }

  lemma {:induction false} ExecSnoc(s: State, es: seq<Event>, e: Event)
    requires Exec(s, es).Some? && Enabled(Exec(s, es).value, e)
    ensures Exec(s, es + [e]) == Some(Next(Exec(s, es).value, e))
    decreases |es|
  {
    if es == [] {
      assert [e][1..] == [];
    } else {
      assert (es + [e])[0] == es[0] && (es + [e])[1..] == es[1..] + [e];
      ExecSnoc(Next(s, es[0]), es[1..], e);
    }
  }

  lemma Step(s0: State, s: State, e: Event, r: State)
    requires Reach(s0, s) && Enabled(s, e) && r == Next(s, e)
    ensures Reach(s0, r)
  {
    var es: seq<Event> :| Exec(s0, es) == Some(s);
    ExecSnoc(s0, es, e);
  }

  lemma ReachKeepsRing(nbuf: nat, users: nat, disk: map<Key, Block>, s: State)
    requires Reach(Boot(nbuf, users, disk), s)
    ensures Ring(s)
  {
    var es: seq<Event> :| Exec(Boot(nbuf, users, disk), es) == Some(s);
    BootInv(nbuf, users, disk);
    RunKeepsInv(Boot(nbuf, users, disk), es);
  }

  function DirtyCount(bufs: seq<Buf>): (n: nat)
    ensures n <= |bufs|
  {
    if bufs == [] then 0 else (if bufs[0].dirty then 1 else 0) + DirtyCount(bufs[1..])
  }

  lemma {:induction false} DirtyUpdate(bufs: seq<Buf>, b: nat, x: Buf)
    requires b < |bufs| && !bufs[b].dirty && x.dirty
    ensures DirtyCount(bufs[b := x]) == DirtyCount(bufs) + 1
  {
    if b == 0 {
      assert bufs[0 := x][1..] == bufs[1..];
    } else {
      assert bufs[b := x][1..] == bufs[1..][b - 1 := x];
      DirtyUpdate(bufs[1..], b - 1, x);
    }
  }

  lemma {:induction false} DirtyAll(bufs: seq<Buf>)
    ensures DirtyCount(bufs) == |bufs| <==> forall b | 0 <= b < |bufs| :: bufs[b].dirty
  {
    if bufs != [] {
      DirtyAll(bufs[1..]);
      assert bufs == [bufs[0]] + bufs[1..];
      assert (forall b | 0 <= b < |bufs| :: bufs[b].dirty)
        <==> bufs[0].dirty && forall b | 0 <= b < |bufs[1..]| :: bufs[1..][b].dirty;
    }
  }

  /** The blocks whose buffers are pinned. */
  ghost function DirtyKeys(bufs: seq<Buf>): set<Key> {
    set b | 0 <= b < |bufs| && bufs[b].dirty :: bufs[b].key
  }

  ghost function Blocks(from: nat, k: nat): set<Key> {
    set i | from <= i < from + k :: Key(1, i)
  }

  /** One idle user; k buffers are pinned, with the blocks from `from` on of device 1. */
  ghost predicate PinnedFrom(s: State, from: nat, k: nat) {
    && !s.panicked && s.users == [Idle] && DirtyCount(s.bufs) == k && InRange(s.bufs, s.order)
    && DirtyKeys(s.bufs) == Blocks(from, k)
    && forall b | 0 <= b < |s.bufs| :: s.bufs[b].refcnt == 0 && (!s.bufs[b].dirty ==> s.bufs[b].key == Key(0, 0))
  }

  lemma DirtyKeysUpdate(bufs: seq<Buf>, b: nat, x: Buf, from: nat, k: nat)
    requires b < |bufs| && !bufs[b].dirty && x.dirty && x.key == Key(1, from + k)
    requires DirtyKeys(bufs) == Blocks(from, k)
    ensures DirtyKeys(bufs[b := x]) == Blocks(from, k + 1)
  {
    assert DirtyKeys(bufs[b := x]) == DirtyKeys(bufs) + {x.key} by {
      assert bufs[b := x][b] == x;
      forall y | y in DirtyKeys(bufs)
        ensures y in DirtyKeys(bufs[b := x])
      {
        var c :| 0 <= c < |bufs| && bufs[c].dirty && bufs[c].key == y;
        assert bufs[b := x][c] == bufs[c];
      }
    }
    assert Blocks(from, k + 1) == Blocks(from, k) + {Key(1, from + k)};
  }

  /** bread of a block that is not cached. */
  lemma ReadIn(s0: State, s: State, key: Key) returns (r: State)
    requires Reach(s0, s) && !s.panicked && s.users == [Idle] && InRange(s.bufs, s.order) && Uncached(s, key)
    requires key.dev != 0 && key in s.disk && Victim(s.bufs, s.order).Some?
    ensures Reach(s0, r)
    ensures var b := Victim(s.bufs, s.order).value;
            r == s.(users := [Held(b, false)], bufs := s.bufs[b := Buf(key, true, false, 1, s.disk[key])])
  {
    assert Find(s.bufs, s.order, key).None?;
    var s1 := Next(s, Get(0, key));
    Step(s0, s, Get(0, key), s1);
    var s2 := Next(s1, Lock(0));
    Step(s0, s1, Lock(0), s2);
    r := Next(s2, Fill(0));
    Step(s0, s2, Fill(0), r);
  }

  /** log_write and brelse. */
  lemma PinAndRelease(s0: State, s: State, b: nat) returns (r: State)
    requires Reach(s0, s) && !s.panicked && s.users == [Held(b, false)]
    requires b < |s.bufs| && s.bufs[b].valid && s.bufs[b].key in s.disk && s.bufs[b].refcnt == 1
    ensures Reach(s0, r) && !r.panicked && r.disk == s.disk && r.users == [Idle]
    ensures r.bufs == s.bufs[b := s.bufs[b].(dirty := true, refcnt := 0)]
  {
    var s1 := Next(s, Pin(0));
    Step(s0, s, Pin(0), s1);
    var s2 := Next(s1, Unlock(0));
    Step(s0, s1, Unlock(0), s2);
    r := Next(s2, Drop(0));
    Step(s0, s2, Drop(0), r);
  }

  lemma {:induction false} PinMany(nbuf: nat, disk: map<Key, Block>, from: nat, k: nat) returns (r: State)
    requires k <= nbuf && Blocks(from, k) <= disk.Keys
    ensures Reach(Boot(nbuf, 1, disk), r) && PinnedFrom(r, from, k) && r.disk == disk && |r.bufs| == nbuf
  {
    var s0 := Boot(nbuf, 1, disk);
    if k == 0 {
      NoneDirty(s0.bufs);
      assert Exec(s0, []) == Some(s0);
      r := s0;
    } else {
      assert Blocks(from, k - 1) <= Blocks(from, k);
      var s := PinMany(nbuf, disk, from, k - 1);
      r := PinNext(nbuf, disk, s, from, k - 1);
    }
  }

  lemma PinNext(nbuf: nat, disk: map<Key, Block>, s: State, from: nat, k: nat) returns (r: State)
    requires Reach(Boot(nbuf, 1, disk), s) && PinnedFrom(s, from, k) && k < nbuf == |s.bufs|
    requires s.disk == disk && Key(1, from + k) in disk
    ensures Reach(Boot(nbuf, 1, disk), r) && PinnedFrom(r, from, k + 1) && r.disk == disk && |r.bufs| == nbuf
  {
    var s0, key := Boot(nbuf, 1, disk), Key(1, from + k);
    ReachKeepsRing(nbuf, 1, disk, s);
    SomeoneFree(s, from, k);
    NotAmong(s, from, k, key);
    var b := Victim(s.bufs, s.order).value;
    var m := ReadIn(s0, s, key);
    r := PinAndRelease(s0, m, b);
    assert r.bufs == s.bufs[b := r.bufs[b]];
    DirtyUpdate(s.bufs, b, r.bufs[b]);
    DirtyKeysUpdate(s.bufs, b, r.bufs[b], from, k);
    ReachKeepsRing(nbuf, 1, disk, r);
  }

  lemma NotAmong(s: State, from: nat, k: nat, key: Key)
    requires PinnedFrom(s, from, k) && key !in Blocks(from, k) && key.dev != 0
    ensures Uncached(s, key)
  {
    forall b | 0 <= b < |s.bufs|
      ensures s.bufs[b].key != key
    {
      assert s.bufs[b].dirty ==> s.bufs[b].key in DirtyKeys(s.bufs);
    }
  }

  lemma {:induction false} NoneDirty(bufs: seq<Buf>)
    requires forall b | 0 <= b < |bufs| :: !bufs[b].dirty
    ensures DirtyCount(bufs) == 0
  {
    if bufs != [] {
      NoneDirty(bufs[1..]);
    }
  }

  /** Fewer pins than buffers leave a buffer to recycle. */
  lemma SomeoneFree(s: State, from: nat, k: nat)
    requires PinnedFrom(s, from, k) && Ring(s) && k < |s.bufs|
    ensures Victim(s.bufs, s.order).Some?
  {
    if Victim(s.bufs, s.order).None? {
      forall b | 0 <= b < |s.bufs|
        ensures s.bufs[b].dirty
      {
        AllListed(s, b);
      }
      DirtyAll(s.bufs);
    }
  }

  /** Buffers the log has not pinned but somebody uses. */
  function CleanInUse(bufs: seq<Buf>): (n: nat)
    ensures DirtyCount(bufs) + n <= |bufs|
  {
    if bufs == [] then 0
    else (if !bufs[0].dirty && bufs[0].refcnt > 0 then 1 else 0) + CleanInUse(bufs[1..])
  }

  lemma {:induction false} NoneRecyclable(bufs: seq<Buf>)
    ensures DirtyCount(bufs) + CleanInUse(bufs) == |bufs| <==> forall b | 0 <= b < |bufs| :: !Recyclable(bufs[b])
  {
    if bufs != [] {
      NoneRecyclable(bufs[1..]);
      assert bufs == [bufs[0]] + bufs[1..];
      assert (forall b | 0 <= b < |bufs| :: !Recyclable(bufs[b]))
        <==> !Recyclable(bufs[0]) && forall b | 0 <= b < |bufs[1..]| :: !Recyclable(bufs[1..][b]);
    }
  }

  /** Users in the middle of a bread ... brelse episode. */
  function Busy(users: seq<User>): nat {
    if users == [] then 0 else (if users[0].Idle? then 0 else 1) + Busy(users[1..])
  }

  /** How many of the first n buffers somebody uses. */
  function Used(users: seq<User>, n: nat): nat {
    if n == 0 then 0 else Used(users, n - 1) + if Refs(users, n - 1) > 0 then 1 else 0
  }

  lemma {:induction false} UsedOneMore(users: seq<User>, n: nat)
    requires users != []
    ensures Used(users, n) <= Used(users[1..], n) + if !users[0].Idle? && users[0].buf < n then 1 else 0
  {
    if n > 0 {
      UsedOneMore(users, n - 1);
    }
  }

  lemma {:induction false} UsedAtMostBusy(users: seq<User>, n: nat)
    ensures Used(users, n) <= Busy(users)
  {
    if users != [] {
      UsedOneMore(users, n);
      UsedAtMostBusy(users[1..], n);
    } else if n > 0 {
      UsedAtMostBusy(users, n - 1);
    }
  }

  lemma {:induction false} CleanInUseIsUsed(s: State, n: nat)
    requires RefsInv(s) && n <= |s.bufs|
    ensures CleanInUse(s.bufs[..n]) <= Used(s.users, n)
  {
    if n > 0 {
      CleanInUseIsUsed(s, n - 1);
      assert s.bufs[..n] == s.bufs[..n - 1] + [s.bufs[n - 1]];
      CleanSnoc(s.bufs[..n - 1], s.bufs[n - 1]);
    }
  }

  lemma {:induction false} CleanSnoc(bufs: seq<Buf>, b: Buf)
    ensures CleanInUse(bufs + [b]) == CleanInUse(bufs) + if !b.dirty && b.refcnt > 0 then 1 else 0
  {
    if bufs == [] {
      assert bufs + [b] == [b];
    } else {
      assert (bufs + [b])[0] == bufs[0] && (bufs + [b])[1..] == bufs[1..] + [b];
      CleanSnoc(bufs[1..], b);
    }
  }

  /** In every state of every run, with any number of users: the bread of a block that
      is not cached, as commit makes for each log block, finds no buffer if and only if
      those pinned and those in use make up all of them. It cannot happen while pins
      and busy users together are fewer than the buffers, and with nobody busy it
      happens exactly when all are pinned. */
  lemma CommitStarvesExactly(nbuf: nat, users: nat, disk: map<Key, Block>, s: State, u: nat, log: Key)
    requires Reach(Boot(nbuf, users, disk), s) && !s.panicked && CanGet(s, u, log) && Uncached(s, log)
    ensures |s.bufs| == nbuf
    ensures GetStep(s, u, log).panicked <==> DirtyCount(s.bufs) + CleanInUse(s.bufs) == nbuf
    ensures CleanInUse(s.bufs) <= Busy(s.users)
    ensures Busy(s.users) == 0 ==> (GetStep(s, u, log).panicked <==> DirtyCount(s.bufs) == nbuf)
  {
    var es: seq<Event> :| Exec(Boot(nbuf, users, disk), es) == Some(s);
    BootInv(nbuf, users, disk);
    RunKeepsInv(Boot(nbuf, users, disk), es);
    RunKeepsSize(Boot(nbuf, users, disk), es);
    GetPanicsExactly(s, u, log);
    NoneRecyclable(s.bufs);
    assert s.bufs[..nbuf] == s.bufs;
    CleanInUseIsUsed(s, nbuf);
    UsedAtMostBusy(s.users, nbuf);
  }

  lemma {:induction false} RunKeepsSize(s: State, es: seq<Event>)
    ensures Exec(s, es).Some? ==> |Exec(s, es).value.bufs| == |s.bufs|
    decreases |es|
  {
    if es != [] && Enabled(s, es[0]) {
      RunKeepsSize(Next(s, es[0]), es[1..]);
    }
  }

  /** Both sides of that are reached: any number k of pins up to all, with nobody busy.
      LogBuffers says how many pins the log can make. */
  lemma FullTransactionStarvesCommit(nbuf: nat, disk: map<Key, Block>, from: nat, k: nat, log: Key)
    requires k <= nbuf && Blocks(from, k) <= disk.Keys
    requires log in disk && log.dev != 0 && log !in Blocks(from, k)
    ensures exists s: State :: Reach(Boot(nbuf, 1, disk), s) && PinnedFrom(s, from, k) && CanGet(s, 0, log) && Uncached(s, log)
                               && (GetStep(s, 0, log).panicked <==> k == nbuf)
  {
    var s := PinMany(nbuf, disk, from, k);
    ReachKeepsRing(nbuf, 1, disk, s);
    NotAmong(s, from, k, log);
    assert Find(s.bufs, s.order, log).None?;
    if k < nbuf {
      SomeoneFree(s, from, k);
    } else {
      DirtyAll(s.bufs);
      assert Victim(s.bufs, s.order).None?;
    }
  }
}
