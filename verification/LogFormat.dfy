/** The on-disk redo log of log.c: a header block followed by copies of home
    blocks, and the disks that commit and recovery pass through. */
module LogFormat {
  import opened Basics
  import opened Words

  const MAXOPBLOCKS: nat := 10
  const LOGSIZE: nat := MAXOPBLOCKS * 3

  type Disk = seq<Block>

  /** `start` and `size` are log.start and log.size; `blocks` is the disk's length. */
  datatype Geometry = Geometry(start: nat, size: nat, blocks: nat)

  ghost predicate ValidGeometry(g: Geometry) {
    1 <= g.size && g.start + g.size <= g.blocks < WORD_LIMIT
  }

  predicate Home(g: Geometry, b: int) {
    0 <= b < g.blocks && !(g.start <= b < g.start + g.size)
  }

  ghost predicate DiskOk(g: Geometry, d: Disk) {
    ValidGeometry(g) && |d| == g.blocks
  }

  /** Block lists that fit both the header and the log area. */
  ghost predicate HeaderOk(g: Geometry, lh: seq<nat>) {
    && |lh| <= LOGSIZE
    && |lh| < g.size
    && Once(lh)
    && forall i | 0 <= i < |lh| :: Home(g, lh[i])
  }

  // ---- header encoding ----

  function EncodeBlocks(h: Block, lh: seq<nat>, k: nat): (r: Block)
    requires k <= |lh| <= LOGSIZE
    requires forall i | 0 <= i < |lh| :: lh[i] < WORD_LIMIT
  {
    if k == 0 then h else PutWord(EncodeBlocks(h, lh, k - 1), k, lh[k - 1])
  }

  /** The header block as `write_head` leaves it: words past the last entry survive. */
  function EncodeHead(h: Block, lh: seq<nat>): (r: Block)
    requires |lh| <= LOGSIZE
    requires forall i | 0 <= i < |lh| :: lh[i] < WORD_LIMIT
  {
    EncodeBlocks(PutWord(h, 0, |lh|), lh, |lh|)
  }

  ghost predicate HeadBounded(h: Block) {
    GetWord(h, 0) <= LOGSIZE
  }

  function DecodeHead(h: Block): (lh: seq<nat>)
    requires HeadBounded(h)
  {
    seq(GetWord(h, 0), i requires 0 <= i < GetWord(h, 0) => GetWord(h, i + 1))
  }

  lemma {:induction false} EncodeBlocksAt(h: Block, lh: seq<nat>, k: nat, j: nat)
    requires k <= |lh| <= LOGSIZE && j <= LOGSIZE
    requires forall i | 0 <= i < |lh| :: lh[i] < WORD_LIMIT
    ensures GetWord(EncodeBlocks(h, lh, k), j) == if 1 <= j <= k then lh[j - 1] else GetWord(h, j)
  {
    if k > 0 {
      EncodeBlocksAt(h, lh, k - 1, j);
      GetPut(EncodeBlocks(h, lh, k - 1), k, lh[k - 1], j);
    }
  }

  /** Reading a header back gives exactly the list that was written. */
  lemma DecodeEncode(h: Block, lh: seq<nat>)
    requires |lh| <= LOGSIZE
    requires forall i | 0 <= i < |lh| :: lh[i] < WORD_LIMIT
    ensures HeadBounded(EncodeHead(h, lh))
    ensures DecodeHead(EncodeHead(h, lh)) == lh
  {
    var h0 := PutWord(h, 0, |lh|);
    var r := EncodeHead(h, lh);
    GetPut(h, 0, |lh|, 0);
    EncodeBlocksAt(h0, lh, |lh|, 0);
    forall i | 0 <= i < |lh|
      ensures DecodeHead(r)[i] == lh[i]
    {
      EncodeBlocksAt(h0, lh, |lh|, i + 1);
    }
  }

  // ---- the disk writes ----

  /** The header block names a list that recovery can follow. */
  ghost predicate HeadOk(g: Geometry, d: Disk) {
    && DiskOk(g, d)
    && HeadBounded(d[g.start])
    && HeaderOk(g, DecodeHead(d[g.start]))
  }

  ghost function Header(g: Geometry, d: Disk): (lh: seq<nat>)
    requires HeadOk(g, d)
    ensures HeaderOk(g, lh)
  {
    DecodeHead(d[g.start])
  }

  function WriteHead(g: Geometry, d: Disk, lh: seq<nat>): (r: Disk)
    requires DiskOk(g, d) && HeaderOk(g, lh)
    ensures DiskOk(g, r) && HeadOk(g, r) && Header(g, r) == lh
    ensures forall b | 0 <= b < |d| && b != g.start :: r[b] == d[b]
  {
    DecodeEncode(d[g.start], lh);
    d[g.start := EncodeHead(d[g.start], lh)]
  }

  /** The blocks a transaction logs, as the buffer cache holds them. */
  type Cache = map<nat, Block>

  ghost predicate CacheOk(lh: seq<nat>, c: Cache) {
    forall i | 0 <= i < |lh| :: lh[i] in c
  }

  /** The disk after `write_log` has written its first k log blocks. */
  function LogCopied(g: Geometry, d: Disk, lh: seq<nat>, c: Cache, k: nat): (r: Disk)
    requires DiskOk(g, d) && HeaderOk(g, lh) && CacheOk(lh, c) && k <= |lh|
    ensures DiskOk(g, r) && r[g.start] == d[g.start]
  {
    if k == 0 then d else LogCopied(g, d, lh, c, k - 1)[g.start + k := c[lh[k - 1]]]
  }

  lemma {:induction false} LogCopiedIs(g: Geometry, d: Disk, lh: seq<nat>, c: Cache, k: nat)
    requires DiskOk(g, d) && HeaderOk(g, lh) && CacheOk(lh, c) && k <= |lh|
    ensures var r := LogCopied(g, d, lh, c, k);
            && (forall i | 0 <= i < k :: r[g.start + 1 + i] == c[lh[i]])
            && (forall b {:trigger Home(g, b)} | Home(g, b) :: r[b] == d[b])
  {
    if k > 0 {
      LogCopiedIs(g, d, lh, c, k - 1);
    }
  }

  /** The disk after `install_trans` has copied the first k log blocks home. */
  function Install(g: Geometry, d: Disk, lh: seq<nat>, k: nat): (r: Disk)
    requires DiskOk(g, d) && HeaderOk(g, lh) && k <= |lh|
    ensures DiskOk(g, r)
  {
    if k == 0 then d else
      var p := Install(g, d, lh, k - 1);
      p[lh[k - 1] := p[g.start + k]]
  }

  lemma {:induction false} InstallIs(g: Geometry, d: Disk, lh: seq<nat>, k: nat)
    requires DiskOk(g, d) && HeaderOk(g, lh) && k <= |lh|
    ensures var r := Install(g, d, lh, k);
            && (forall b | g.start <= b < g.start + g.size :: r[b] == d[b])
            && (forall i | 0 <= i < k :: r[lh[i]] == d[g.start + 1 + i])
            && (forall b | 0 <= b < |d| && b !in lh[..k] :: r[b] == d[b])
  {
    if k > 0 {
      InstallIs(g, d, lh, k - 1);
      assert lh[..k] == lh[..k - 1] + [lh[k - 1]];
      forall i | 0 <= i < k - 1
        ensures lh[i] != lh[k - 1]
      {
        OnceAt(lh, i, k - 1);
      }
    }
  }

  ghost predicate SameHome(g: Geometry, d: Disk, e: Disk) {
    |d| == |e| == g.blocks && forall b {:trigger Home(g, b)} | Home(g, b) :: d[b] == e[b]
  }

  /** The disk after k writes of `recover_from_log`: k - 1 installed blocks, or all
      of them and the cleared header. */
  function RecoveryDisk(g: Geometry, d: Disk, k: nat): (r: Disk)
    requires HeadOk(g, d) && k <= |Header(g, d)| + 1
    ensures HeadOk(g, r)
  {
    var lh := DecodeHead(d[g.start]);
    InstallIs(g, d, lh, if k <= |lh| then k else |lh|);
    if k <= |lh| then Install(g, d, lh, k) else WriteHead(g, Install(g, d, lh, |lh|), [])
  }

  function Recovered(g: Geometry, d: Disk): (r: Disk)
    requires HeadOk(g, d)
    ensures HeadOk(g, r) && Header(g, r) == []
  {
    RecoveryDisk(g, d, |DecodeHead(d[g.start])| + 1)
  }

  /** The disk after k writes of `commit`: the log copies, the header that commits,
      the installed blocks, the header that erases. */
  function CommitDisk(g: Geometry, d: Disk, lh: seq<nat>, c: Cache, k: nat): (r: Disk)
    requires HeadOk(g, d) && Header(g, d) == []
    requires HeaderOk(g, lh) && CacheOk(lh, c) && k <= 2 * |lh| + 2
    ensures HeadOk(g, r)
  {
    var n := |lh|;
    if k <= n then LogCopied(g, d, lh, c, k)
    else
      var w := WriteHead(g, LogCopied(g, d, lh, c, n), lh);
      InstallIs(g, w, lh, if k <= 2 * n + 1 then k - n - 1 else n);
      if k <= 2 * n + 1 then Install(g, w, lh, k - n - 1)
      else WriteHead(g, Install(g, w, lh, n), [])
  }

  // ---- what recovery promises ----

  /** Recovery of d would yield the home blocks of `base`. */
  ghost predicate Recoverable(g: Geometry, d: Disk, base: Disk) {
    && HeadOk(g, d) && |base| == g.blocks
    && var lh := Header(g, d);
       && (forall i | 0 <= i < |lh| :: d[g.start + 1 + i] == base[lh[i]])
       && (forall b {:trigger Home(g, b)} | Home(g, b) && b !in lh :: d[b] == base[b])
  }

  lemma InstallKeepsRecoverable(g: Geometry, d: Disk, base: Disk, k: nat)
    requires Recoverable(g, d, base) && k <= |Header(g, d)|
    ensures Recoverable(g, Install(g, d, Header(g, d), k), base)
  {
    InstallIs(g, d, Header(g, d), k);
  }

  lemma InstalledHome(g: Geometry, d: Disk, base: Disk)
    requires Recoverable(g, d, base)
    ensures SameHome(g, Install(g, d, Header(g, d), |Header(g, d)|), base)
  {
    var lh := Header(g, d);
    var r := Install(g, d, lh, |lh|);
    InstallIs(g, d, lh, |lh|);
    assert lh[..|lh|] == lh;
    forall b {:trigger Home(g, b)} | Home(g, b)
      ensures r[b] == base[b]
    {
      if b in lh {
        var i :| 0 <= i < |lh| && lh[i] == b;
        assert r[lh[i]] == d[g.start + 1 + i];
      }
    }
  }

  /** An erased log leaves nothing for recovery to do. */
  lemma EmptyHeadRecoverable(g: Geometry, d: Disk, base: Disk)
    requires HeadOk(g, d) && Header(g, d) == [] && SameHome(g, d, base)
    ensures Recoverable(g, d, base)
  {
  }

  /** Recovery restores `base` from any disk from which `base` is recoverable. */
  lemma RecoveredHome(g: Geometry, d: Disk, base: Disk)
    requires Recoverable(g, d, base)
    ensures SameHome(g, Recovered(g, d), base)
  {
    InstalledHome(g, d, base);
  }

  /** A crash after any number of recovery's own writes loses nothing. */
  lemma RecoveryKeepsRecoverable(g: Geometry, d: Disk, base: Disk, k: nat)
    requires Recoverable(g, d, base) && k <= |Header(g, d)| + 1
    ensures Recoverable(g, RecoveryDisk(g, d, k), base)
  {
    if k <= |Header(g, d)| {
      InstallKeepsRecoverable(g, d, base, k);
    } else {
      InstalledHome(g, d, base);
    }
  }

  /** Every disk whose header can be followed recovers to something well defined. */
  lemma SelfRecoverable(g: Geometry, d: Disk)
    requires HeadOk(g, d)
    ensures Recoverable(g, d, Recovered(g, d))
  {
    var lh := Header(g, d);
    InstallIs(g, d, lh, |lh|);
    assert lh[..|lh|] == lh;
  }

  /** The disk left by a run of attempts at recovery, attempt i being cut short by a
      crash after ks[i] writes (or finished, when ks[i] is more than it makes). */
  function CrashedRecoveries(g: Geometry, d: Disk, ks: seq<nat>): (r: Disk)
    requires HeadOk(g, d)
    ensures HeadOk(g, r)
    decreases |ks|
  {
    if ks == [] then d else
      var all := |DecodeHead(d[g.start])| + 1;
      CrashedRecoveries(g, RecoveryDisk(g, d, if ks[0] < all then ks[0] else all), ks[1..])
  }

  /** However often recovery is interrupted, and wherever, the attempt that finishes
      leaves the same home blocks as one uninterrupted attempt. */
  lemma {:induction false} RecoveryIdempotent(g: Geometry, d: Disk, ks: seq<nat>)
    requires HeadOk(g, d)
    ensures SameHome(g, Recovered(g, CrashedRecoveries(g, d, ks)), Recovered(g, d))
  {
    SelfRecoverable(g, d);
    CrashedRecoveriesKeep(g, d, ks, Recovered(g, d));
    RecoveredHome(g, CrashedRecoveries(g, d, ks), Recovered(g, d));
  }

  lemma {:induction false} CrashedRecoveriesKeep(g: Geometry, d: Disk, ks: seq<nat>, base: Disk)
    requires Recoverable(g, d, base)
    ensures Recoverable(g, CrashedRecoveries(g, d, ks), base)
    decreases |ks|
  {
    if ks != [] {
      var all := |DecodeHead(d[g.start])| + 1;
      var k := if ks[0] < all then ks[0] else all;
      RecoveryKeepsRecoverable(g, d, base, k);
      CrashedRecoveriesKeep(g, RecoveryDisk(g, d, k), ks[1..], base);
    }
  }

  /** The home blocks with every logged block replaced by its cached contents. */
  ghost predicate Applied(g: Geometry, d: Disk, lh: seq<nat>, c: Cache, r: Disk)
    requires DiskOk(g, d) && HeaderOk(g, lh) && CacheOk(lh, c)
  {
    && |r| == g.blocks
    && (forall i | 0 <= i < |lh| :: r[lh[i]] == c[lh[i]])
    && (forall b {:trigger Home(g, b)} | Home(g, b) && b !in lh :: r[b] == d[b])
  }

  /** Crash atomicity of `commit`: cut short after any k of its writes and recovered
      after any crashes, the transaction is absent until the header write (the
      (n + 1)st) and wholly present from then on. */
  lemma CommitAtomic(g: Geometry, d: Disk, lh: seq<nat>, c: Cache, k: nat, ks: seq<nat>)
    requires HeadOk(g, d) && Header(g, d) == []
    requires HeaderOk(g, lh) && CacheOk(lh, c) && k <= 2 * |lh| + 2
    ensures var r := Recovered(g, CrashedRecoveries(g, CommitDisk(g, d, lh, c, k), ks));
            && (k <= |lh| ==> SameHome(g, r, d))
            && (k > |lh| ==> Applied(g, d, lh, c, r))
  {
    var x := CommitDisk(g, d, lh, c, k);
    var base := if k <= |lh| then d else ApplyCache(g, d, lh, c, |lh|);
    CommitRecoverable(g, d, lh, c, k);
    CrashedRecoveriesKeep(g, x, ks, base);
    RecoveredHome(g, CrashedRecoveries(g, x, ks), base);
  }

  ghost function ApplyCache(g: Geometry, d: Disk, lh: seq<nat>, c: Cache, k: nat): (r: Disk)
    requires DiskOk(g, d) && HeaderOk(g, lh) && CacheOk(lh, c) && k <= |lh|
    ensures |r| == |d|
    ensures forall i | 0 <= i < k :: r[lh[i]] == c[lh[i]]
    ensures forall b | 0 <= b < |d| && b !in lh[..k] :: r[b] == d[b]
    ensures k == |lh| ==> Applied(g, d, lh, c, r)
  {
    if k == 0 then d else
      assert lh[..k] == lh[..k - 1] + [lh[k - 1]];
      assert lh[..|lh|] == lh;
      assert forall i | 0 <= i < k - 1 :: lh[i] != lh[k - 1] by {
        forall i | 0 <= i < k - 1 ensures lh[i] != lh[k - 1] { OnceAt(lh, i, k - 1); }
      }
      ApplyCache(g, d, lh, c, k - 1)[lh[k - 1] := c[lh[k - 1]]]
  }

  /** Once the header is written the log holds the whole transaction. */
  lemma HeaderCommits(g: Geometry, d: Disk, lh: seq<nat>, c: Cache)
    requires DiskOk(g, d) && HeaderOk(g, lh) && CacheOk(lh, c)
    ensures Recoverable(g, WriteHead(g, LogCopied(g, d, lh, c, |lh|), lh), ApplyCache(g, d, lh, c, |lh|))
  {
    var l := LogCopied(g, d, lh, c, |lh|);
    LogCopiedIs(g, d, lh, c, |lh|);
    var a := ApplyCache(g, d, lh, c, |lh|);
    LogHolds(g, l, lh, a);
  }

  lemma LogHolds(g: Geometry, l: Disk, lh: seq<nat>, base: Disk)
    requires DiskOk(g, l) && HeaderOk(g, lh) && |base| == g.blocks
    requires forall i | 0 <= i < |lh| :: l[g.start + 1 + i] == base[lh[i]]
    requires forall b {:trigger Home(g, b)} | Home(g, b) && b !in lh :: l[b] == base[b]
    ensures Recoverable(g, WriteHead(g, l, lh), base)
  {
    var w := WriteHead(g, l, lh);
    forall i | 0 <= i < |lh|
      ensures w[g.start + 1 + i] == base[lh[i]]
    {
      assert l[g.start + 1 + i] == base[lh[i]];
    }
  }

  /** While the blocks are copied to the log. */
  lemma CopyingRecoverable(g: Geometry, d: Disk, lh: seq<nat>, c: Cache, k: nat)
    requires HeadOk(g, d) && Header(g, d) == [] && HeaderOk(g, lh) && CacheOk(lh, c) && k <= |lh|
    ensures Recoverable(g, LogCopied(g, d, lh, c, k), d)
  {
    LogCopiedIs(g, d, lh, c, k);
    EmptyHeadRecoverable(g, LogCopied(g, d, lh, c, k), d);
  }

  /** Once they are all home and the header is cleared. */
  lemma ClearedRecoverable(g: Geometry, w: Disk, a: Disk)
    requires Recoverable(g, w, a)
    ensures var lh := Header(g, w);
            Recoverable(g, WriteHead(g, Install(g, w, lh, |lh|), []), a)
  {
    InstalledHome(g, w, a);
    EmptyHeadRecoverable(g, WriteHead(g, Install(g, w, Header(g, w), |Header(g, w)|), []), a);
  }

  lemma CommitRecoverable(g: Geometry, d: Disk, lh: seq<nat>, c: Cache, k: nat)
    requires HeadOk(g, d) && Header(g, d) == []
    requires HeaderOk(g, lh) && CacheOk(lh, c) && k <= 2 * |lh| + 2
    ensures Recoverable(g, CommitDisk(g, d, lh, c, k),
                        if k <= |lh| then d else ApplyCache(g, d, lh, c, |lh|))
  {
    var n := |lh|;
    if k <= n {
      CopyingRecoverable(g, d, lh, c, k);
    } else {
      HeaderCommits(g, d, lh, c);
      var w, a := WriteHead(g, LogCopied(g, d, lh, c, n), lh), ApplyCache(g, d, lh, c, n);
      assert Header(g, w) == lh;
      if k <= 2 * n + 1 {
        InstallKeepsRecoverable(g, w, a, k - n - 1);
      } else {
        ClearedRecoverable(g, w, a);
      }
    }
  }
}
