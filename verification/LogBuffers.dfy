/** The log and the buffer cache together: whether commit, with the transaction's blocks
    pinned, finds a buffer for its copies. */
module LogBuffers {
  import opened Basics
  import opened Words
  import opened LogFormat
  import LogMachine
  import LogProofs
  import LogReservation
  import opened CacheMachine
  import opened CacheProofs

  /** MAXOPBLOCKS * 3, as LOGSIZE is. */
  const NBUF: nat := MAXOPBLOCKS * 3

  /** The pinned buffers of the cache are those the log has pinned, on the root device. */
  ghost predicate Joined(s: LogMachine.State, t: State) {
    DirtyKeys(t.bufs) == set b | b in s.pinned :: Key(1, b)
  }

  // ---- counting the pins ----

  lemma {:induction false} DirtyKeysCount(bufs: seq<Buf>)
    requires Unique(bufs) && forall b | 0 <= b < |bufs| && bufs[b].dirty :: bufs[b].key.dev != 0
    ensures |DirtyKeys(bufs)| == DirtyCount(bufs)
  {
    if bufs == [] {
      assert DirtyKeys(bufs) == {};
    } else {
      var rest := bufs[1..];
      UniqueTail(bufs);
      DirtyKeysCount(rest);
      DirtyKeysCons(bufs);
    }
  }

  lemma UniqueTail(bufs: seq<Buf>)
    requires bufs != [] && Unique(bufs)
    ensures Unique(bufs[1..])
  {
    var rest := bufs[1..];
    forall i, j | 0 <= i < |rest| && 0 <= j < |rest| && rest[i].key.dev != 0 && rest[i].key == rest[j].key
      ensures i == j
    {
      assert bufs[i + 1].key == bufs[j + 1].key;
    }
  }

  lemma DirtyKeysCons(bufs: seq<Buf>)
    requires bufs != [] && Unique(bufs)
    ensures DirtyKeys(bufs) == DirtyKeys(bufs[1..]) + if bufs[0].dirty then {bufs[0].key} else {}
    ensures bufs[0].dirty && bufs[0].key.dev != 0 ==> bufs[0].key !in DirtyKeys(bufs[1..])
  {
    forall y
      ensures y in DirtyKeys(bufs) <==> y in DirtyKeys(bufs[1..]) || (bufs[0].dirty && y == bufs[0].key)
    {
      if y in DirtyKeys(bufs) {
        var b :| 0 <= b < |bufs| && bufs[b].dirty && bufs[b].key == y;
        assert b > 0 ==> bufs[1..][b - 1] == bufs[b];
      }
      if y in DirtyKeys(bufs[1..]) {
        var b :| 0 <= b < |bufs[1..]| && bufs[1..][b].dirty && bufs[1..][b].key == y;
        assert bufs[b + 1] == bufs[1..][b];
      }
    }
  }

  lemma {:induction false} OnceCount(lh: seq<nat>, keys: set<Key>)
    requires Once(lh) && keys == set b | b in lh :: Key(1, b)
    ensures |keys| == |lh|
    decreases |lh|
  {
    if lh != [] {
      var rest := set b | b in lh[1..] :: Key(1, b);
      OnceCount(lh[1..], rest);
      assert keys == rest + {Key(1, lh[0])};
    } else {
      assert keys == {};
    }
  }

  /** While a transaction is built and while it is copied to the log, as many buffers are
      pinned as blocks are logged. */
  lemma PinsAreLogged(g: Geometry, init: Disk, s: LogMachine.State, t: State)
    requires LogMachine.Inv(g, init, s) && (s.phase.Running? || s.phase.CopyingLog?)
    requires Joined(s, t) && Unique(t.bufs)
    ensures DirtyCount(t.bufs) == |s.lh|
  {
    var keys := set b | b in s.pinned :: Key(1, b);
    assert keys == set b | b in s.lh :: Key(1, b) by {
      assert LogMachine.PinnedInv(s.pinned, s.lh, 0);
      assert forall b | b in s.pinned :: LogMachine.InTail(s.lh, 0, b);
    }
    OnceCount(s.lh, keys);
    forall b | 0 <= b < |t.bufs| && t.bufs[b].dirty
      ensures t.bufs[b].key.dev != 0
    {
      assert t.bufs[b].key in DirtyKeys(t.bufs);
    }
    DirtyKeysCount(t.bufs);
  }

  // ---- commit's bread of a log block ----

  /** The state s of the log and the state t of a cache of nbuf buffers are reached by runs
      of the two machines, and agree on what is pinned; the log has fitted its area. */
  ghost predicate Together(g: Geometry, d: Disk, n: nat, s: LogMachine.State,
                           nbuf: nat, users: nat, disk: map<Key, Block>, t: State) {
    && (exists es: seq<LogMachine.Event> ::
          LogMachine.Fits(g, LogMachine.Boot(d, n), es) && LogMachine.Exec(g, LogMachine.Boot(d, n), es) == Some(s))
    && Reach(Boot(nbuf, users, disk), t) && !t.panicked && Joined(s, t)
  }

  /** bread of a block that is not cached finds no buffer if and only if the blocks logged
      and the clean buffers in use make up all of them. */
  lemma BreadStarvesExactly(g: Geometry, d: Disk, n: nat, s: LogMachine.State,
                            nbuf: nat, users: nat, disk: map<Key, Block>, t: State, u: nat, key: Key)
    requires HeadOk(g, d) && Together(g, d, n, s, nbuf, users, disk, t) && (s.phase.Running? || s.phase.CopyingLog?)
    requires CanGet(t, u, key) && Uncached(t, key)
    ensures |s.lh| < g.size && CleanInUse(t.bufs) <= Busy(t.users)
    ensures GetStep(t, u, key).panicked <==> |s.lh| + CleanInUse(t.bufs) == nbuf
    ensures g.size + Busy(t.users) <= nbuf ==> !GetStep(t, u, key).panicked
  {
    var es: seq<LogMachine.Event> :|
      LogMachine.Fits(g, LogMachine.Boot(d, n), es) && LogMachine.Exec(g, LogMachine.Boot(d, n), es) == Some(s);
    LogProofs.BootInv(g, d, n);
    LogProofs.RunKeepsInv(g, Recovered(g, d), LogMachine.Boot(d, n), es);
    ReachKeepsUnique(nbuf, users, disk, t);
    PinsAreLogged(g, Recovered(g, d), s, t);
    CommitStarvesExactly(nbuf, users, disk, t, u, key);
  }

  lemma ReachKeepsUnique(nbuf: nat, users: nat, disk: map<Key, Block>, t: State)
    requires Reach(Boot(nbuf, users, disk), t)
    ensures Unique(t.bufs)
  {
    var es: seq<Event> :| Exec(Boot(nbuf, users, disk), es) == Some(t);
    CacheProofs.BootInv(nbuf, users, disk);
    CacheProofs.RunKeepsInv(Boot(nbuf, users, disk), es);
  }

  /** Commit is copying, nobody else is busy, and the bread of a log block finds no buffer. */
  ghost predicate Starves(g: Geometry, d: Disk, n: nat, s: LogMachine.State, nbuf: nat, disk: map<Key, Block>, t: State) {
    && Together(g, d, n, s, nbuf, 1, disk, t) && s.phase == LogMachine.CopyingLog(0) && Busy(t.users) == 0
    && CanGet(t, 0, Key(1, g.start + 1)) && Uncached(t, Key(1, g.start + 1))
    && GetStep(t, 0, Key(1, g.start + 1)).panicked
  }

  lemma EndThree(g: Geometry, s0: LogMachine.State, s: LogMachine.State, u: seq<nat>) returns (r: LogMachine.State)
    requires LogReservation.Reach(g, s0, s) && LogReservation.Filling(g, s, u)
    ensures LogReservation.Reach(g, s0, r) && r.phase == LogMachine.CopyingLog(0) && r.lh == s.lh && r.pinned == s.pinned
  {
    var a := LogMachine.Next(g, s, LogMachine.End(0));
    LogReservation.ReachStep(g, s0, s, LogMachine.End(0), a);
    var b := LogMachine.Next(g, a, LogMachine.End(1));
    LogReservation.ReachStep(g, s0, a, LogMachine.End(1), b);
    r := LogMachine.Next(g, b, LogMachine.End(2));
    LogReservation.ReachStep(g, s0, b, LogMachine.End(2), r);
  }

  /** The log's part: three operations log LOGSIZE blocks and end. */
  lemma FillLog(g: Geometry, d: Disk, n: nat) returns (s: LogMachine.State)
    requires LogReservation.Roomy(g, d, n) && g.size > LOGSIZE
    ensures LogReservation.Reach(g, LogMachine.Boot(d, n), s) && s.phase == LogMachine.CopyingLog(0)
    ensures s.lh == LogReservation.Targets(g, LOGSIZE)
  {
    s := LogReservation.StartThree(g, d, n);
    s := LogReservation.Fill(g, Recovered(g, d), LogMachine.Boot(d, n), s, [MAXOPBLOCKS, MAXOPBLOCKS, MAXOPBLOCKS]);
    s := EndThree(g, LogMachine.Boot(d, n), s, [MAXOPBLOCKS, MAXOPBLOCKS, MAXOPBLOCKS]);
  }

  lemma FullLogJoins(g: Geometry, d: Disk, n: nat, s: LogMachine.State, disk: map<Key, Block>, t: State)
    requires HeadOk(g, d) && g.size > LOGSIZE && LogReservation.Reach(g, LogMachine.Boot(d, n), s)
    requires s.phase.CopyingLog? && s.lh == LogReservation.Targets(g, LOGSIZE)
    requires PinnedFrom(t, g.start + g.size, LOGSIZE) && Reach(Boot(NBUF, 1, disk), t)
    ensures Together(g, d, n, s, NBUF, 1, disk, t)
  {
    var es: seq<LogMachine.Event> :| LogMachine.Exec(g, LogMachine.Boot(d, n), es) == Some(s);
    LogReservation.LogFits(g, d, n, es);
    LogProofs.BootInv(g, d, n);
    LogProofs.RunKeepsInv(g, Recovered(g, d), LogMachine.Boot(d, n), es);
    PinnedAre(g, s.pinned, s.lh);
  }

  lemma PinnedAre(g: Geometry, pinned: Cache, lh: seq<nat>)
    requires LogMachine.PinnedInv(pinned, lh, 0) && lh == LogReservation.Targets(g, LOGSIZE)
    ensures (set b | b in pinned :: Key(1, b)) == Blocks(g.start + g.size, LOGSIZE)
  {
    forall b: nat
      ensures b in pinned <==> g.start + g.size <= b < g.start + g.size + LOGSIZE
    {
      if b in pinned {
        assert LogMachine.InTail(lh, 0, b);
      }
      if g.start + g.size <= b < g.start + g.size + LOGSIZE {
        assert lh[b - (g.start + g.size)] == b;
      }
    }
  }

  /** The cache's part: all buffers hold pinned blocks. */
  lemma Starve(g: Geometry, disk: map<Key, Block>) returns (t: State)
    requires g.start + g.size + LOGSIZE <= g.blocks && g.size > 1 && forall b | 0 <= b < g.blocks :: Key(1, b) in disk
    ensures Reach(Boot(NBUF, 1, disk), t) && PinnedFrom(t, g.start + g.size, NBUF)
    ensures CanGet(t, 0, Key(1, g.start + 1)) && Uncached(t, Key(1, g.start + 1))
    ensures GetStep(t, 0, Key(1, g.start + 1)).panicked
  {
    var from, log := g.start + g.size, Key(1, g.start + 1);
    FullTransactionStarvesCommit(NBUF, disk, from, NBUF, log);
    t :| Reach(Boot(NBUF, 1, disk), t) && PinnedFrom(t, from, NBUF) && CanGet(t, 0, log) && Uncached(t, log)
         && (GetStep(t, 0, log).panicked <==> NBUF == NBUF);
  }

  lemma StarvesOnlyBig(g: Geometry, d: Disk, n: nat, disk: map<Key, Block>, s: LogMachine.State, t: State)
    requires HeadOk(g, d) && Starves(g, d, n, s, NBUF, disk, t)
    ensures g.size > LOGSIZE
  {
    BreadStarvesExactly(g, d, n, s, NBUF, 1, disk, t, 0, Key(1, g.start + 1));
  }

  lemma BigStarves(g: Geometry, d: Disk, n: nat, disk: map<Key, Block>) returns (s: LogMachine.State, t: State)
    requires LogReservation.Roomy(g, d, n) && g.size > LOGSIZE && forall b | 0 <= b < g.blocks :: Key(1, b) in disk
    ensures Starves(g, d, n, s, NBUF, disk, t)
  {
    s := FillLog(g, d, n);
    t := Starve(g, disk);
    FullLogJoins(g, d, n, s, disk, t);
  }

  /** On the log mkfs makes, of LOGSIZE blocks, and on any smaller one, a commit with
      nobody else busy always finds a buffer for its copies, as long as the log fits its
      area. On a larger one, where the log always fits, it need not. */
  lemma CommitStarvesExactlyWhen(g: Geometry, d: Disk, n: nat, disk: map<Key, Block>)
    requires LogReservation.Roomy(g, d, n) && forall b | 0 <= b < g.blocks :: Key(1, b) in disk
    ensures (exists s: LogMachine.State, t: State :: Starves(g, d, n, s, NBUF, disk, t)) <==> g.size > LOGSIZE
  {
    if s: LogMachine.State, t: State :| Starves(g, d, n, s, NBUF, disk, t) {
      StarvesOnlyBig(g, d, n, disk, s, t);
    }
    if g.size > LOGSIZE {
      var s, t := BigStarves(g, d, n, disk);
    }
  }
}
