/** What a sequence of operations does to the file system: the transactions of one
    filewrite, and operations of others on other files in between. */
module Trails {
  import opened Words
  import opened Bitmap
  import opened Inode
  import opened FileContent
  import opened Dinode
  import opened Volume
  import LogMachine

  /** ((MAXOPBLOCKS - 1 - 1 - 2) / 2) * 512: the bytes of one transaction of filewrite. */
  const MAXCHUNK: nat := 1536

  // ---- chunks one after another ----

  lemma ForeignSame(sb: Super, d: Disk, inum: nat, e: Disk, b: nat)
    requires Consistent(sb, d) && OthersKept(sb, d, inum, e)
    ensures Foreign(sb, e, inum, b) <==> Foreign(sb, d, inum, b)
  {
    if j: nat :| j != inum && Has(sb, d, j, b) {
      OtherHas(sb, d, inum, e, j, b);
    }
    if j: nat :| j != inum && Has(sb, e, j, b) {
      OtherHas(sb, d, inum, e, j, b);
    }
  }

  lemma OthersTrans(sb: Super, d: Disk, inum: nat, e: Disk, f: Disk)
    requires Consistent(sb, d) && OthersKept(sb, d, inum, e) && OthersKept(sb, e, inum, f)
    ensures OthersKept(sb, d, inum, f)
  {
    forall x | DataStart(sb) <= x < sb.size && Foreign(sb, d, inum, x)
      ensures f[x] == d[x]
    {
      ForeignSame(sb, d, inum, e, x);
    }
  }

  lemma SplicedTwice(c: seq<byte>, off: nat, s: seq<byte>, t: seq<byte>, c1: seq<byte>, c2: seq<byte>)
    requires off <= |c| && c1 == Spliced(c, off, s) && off + |s| <= |c1| && c2 == Spliced(c1, off + |s|, t)
    ensures c2 == Spliced(c, off, s + t)
  {
  }

  /** Disk d is consistent, inode inum of it is x, and other files are as on d0. */
  ghost predicate Sane(sb: Super, d0: Disk, inum: nat, d: Disk, x: Dino) {
    && Consistent(sb, d0) && Consistent(sb, d) && inum < sb.ninodes && OthersKept(sb, d0, inum, d)
    && ReadDino(sb, d, inum) == x && NoHoles(d, x.addrs, x.size)
  }

  /** The file was `was` on d0 and is x on d: s has been spliced in at off. */
  ghost predicate Appended(d0: Disk, was: Dino, s: seq<byte>, off: nat, d: Disk, x: Dino) {
    && |was.addrs| == |x.addrs| == NDIRECT + 1
    && off <= was.size <= MAXBYTES && x.size == Max(was.size, off + |s|) <= MAXBYTES
    && Content(d, x.addrs, x.size) == Spliced(Content(d0, was.addrs, was.size), off, s)
  }

  lemma AppendedTwice(d0: Disk, was: Dino, s: seq<byte>, off: nat, d: Disk, x: Dino, t: seq<byte>, e: Disk, y: Dino)
    requires Appended(d0, was, s, off, d, x) && Appended(d, x, t, off + |s|, e, y)
    ensures Appended(d0, was, s + t, off, e, y)
  {
    SplicedTwice(Content(d0, was.addrs, was.size), off, s, t,
                 Content(d, x.addrs, x.size), Content(e, y.addrs, y.size));
  }

  // ---- the operations of a run, one after another ----

  /** The operations performed on the disk since Start: transactions of the filewrite that
      is being followed, and operations on other inodes, or on none. Each has the calls of
      log_write it made and the disk it left. */
  datatype Trail =
    | Start(disk: Disk)
    | Mine(before: Trail, bytes: seq<byte>, writes: seq<LogMachine.Write>, disk: Disk)
    | Theirs(before: Trail, inode: nat, writes: seq<LogMachine.Write>, disk: Disk)

  function Len(tr: Trail): nat { if tr.Start? then 0 else Len(tr.before) + 1 }

  function First(tr: Trail): Disk { if tr.Start? then tr.disk else First(tr.before) }

  /** The trail as it was after its first k operations. */
  function At(tr: Trail, k: nat): (r: Trail)
    requires k <= Len(tr)
    ensures Len(r) == k
  {
    if k == Len(tr) then tr else At(tr.before, k)
  }

  /** What the transactions of the trail have written. */
  function Bytes(tr: Trail): seq<byte> {
    match tr
    case Start(_) => []
    case Mine(before, s, _, _) => Bytes(before) + s
    case Theirs(before, _, _, _) => Bytes(before)
  }

  predicate AllMine(tr: Trail) { tr.Start? || (tr.Mine? && AllMine(tr.before)) }

  /** e is d after one transaction that splices s into the file at `at`. */
  ghost predicate OneChunk(sb: Super, inum: nat, at: nat, s: seq<byte>, d: Disk, e: Disk) {
    && Consistent(sb, d) && Consistent(sb, e) && inum < sb.ninodes
    && Sane(sb, d, inum, e, ReadDino(sb, e, inum))
    && Appended(d, ReadDino(sb, d, inum), s, at, e, ReadDino(sb, e, inum))
  }

  ghost function Chunked(sb: Super, inum: nat, at: nat, s: seq<byte>, d: Disk): iset<Disk> {
    iset e: Disk | OneChunk(sb, inum, at, s, d, e)
  }

  /** e is d after an operation on inode j. */
  ghost predicate OtherOp(sb: Super, j: nat, d: Disk, e: Disk) {
    Consistent(sb, e) && OthersKept(sb, d, j, e)
  }

  /** Each operation took the disk before it to the disk after it by its log_writes; the
      filewrite's wrote the next bytes, one chunk at most, at its offset. */
  ghost predicate TrailOk(sb: Super, inum: nat, off: nat, tr: Trail) {
    match tr
    case Start(_) => true
    case Mine(before, s, ws, d) =>
      && TrailOk(sb, inum, off, before) && 0 < |s| <= MAXCHUNK
      && d == LogMachine.ApplyWrites(before.disk, ws) && d in Chunked(sb, inum, off + |Bytes(before)|, s, before.disk)
    case Theirs(before, j, ws, d) =>
      && TrailOk(sb, inum, off, before) && j != inum
      && d == LogMachine.ApplyWrites(before.disk, ws) && OtherOp(sb, j, before.disk, d)
  }

  lemma TrailNext(sb: Super, inum: nat, off: nat, tr: Trail, d: Disk, at: nat, s: seq<byte>, ws: seq<LogMachine.Write>, e: Disk)
    requires TrailOk(sb, inum, off, tr) && d == tr.disk && at == off + |Bytes(tr)| && 0 < |s| <= MAXCHUNK
    requires e == LogMachine.ApplyWrites(d, ws) && e in Chunked(sb, inum, at, s, d)
    ensures TrailOk(sb, inum, off, Mine(tr, s, ws, e))
  {
  }

  /** Inode inum of d is in order. */
  ghost predicate InOrder(sb: Super, inum: nat, d: Disk) {
    && Consistent(sb, d) && inum < sb.ninodes
    && NoHoles(d, ReadDino(sb, d, inum).addrs, ReadDino(sb, d, inum).size)
  }

  /** The file on d is in order, and is the one on d0 with t spliced in at off. */
  ghost predicate FileIs(sb: Super, inum: nat, off: nat, d0: Disk, t: seq<byte>, d: Disk) {
    && InOrder(sb, inum, d0) && InOrder(sb, inum, d)
    && var was, x := ReadDino(sb, d0, inum), ReadDino(sb, d, inum);
       if t == [] then x == was && Content(d, x.addrs, x.size) == Content(d0, was.addrs, was.size)
       else Appended(d0, was, t, off, d, x)
  }

  lemma MineHolds(sb: Super, inum: nat, off: nat, d0: Disk, t: seq<byte>, d: Disk, s: seq<byte>, e: Disk)
    requires FileIs(sb, inum, off, d0, t, d) && e in Chunked(sb, inum, off + |t|, s, d) && s != []
    ensures FileIs(sb, inum, off, d0, t + s, e)
  {
    var was, x, y := ReadDino(sb, d0, inum), ReadDino(sb, d, inum), ReadDino(sb, e, inum);
    assert Appended(d0, was, t + s, off, e, y) by {
      if t == [] {
        assert t + s == s;
      } else {
        AppendedTwice(d0, was, t, off, d, x, s, e, y);
      }
    }
  }

  lemma {:induction false} OtherContent(sb: Super, d: Disk, j: nat, e: Disk, inum: nat, n: nat)
    requires Consistent(sb, d) && OthersKept(sb, d, j, e) && inum < sb.ninodes && j != inum && n <= MAXBYTES
    ensures Content(e, Addrs(sb, e, inum), n) == Content(d, Addrs(sb, d, inum), n)
  {
    if n > 0 {
      OtherContent(sb, d, j, e, inum, n - 1);
      OtherBytes(sb, d, j, e, inum, n - 1);
    }
  }

  lemma TheirsHolds(sb: Super, inum: nat, off: nat, d0: Disk, t: seq<byte>, d: Disk, j: nat, e: Disk)
    requires FileIs(sb, inum, off, d0, t, d) && OtherOp(sb, j, d, e) && j != inum
    ensures FileIs(sb, inum, off, d0, t, e)
  {
    OtherContent(sb, d, j, e, inum, ReadDino(sb, d, inum).size);
    OtherInOrder(sb, d, j, e, inum);
  }

  lemma OtherInOrder(sb: Super, d: Disk, j: nat, e: Disk, inum: nat)
    requires InOrder(sb, inum, d) && OtherOp(sb, j, d, e) && j != inum
    ensures InOrder(sb, inum, e)
  {
    var x := ReadDino(sb, d, inum);
    OtherSlots(sb, d, j, e, inum);
    forall bn | 0 <= bn < MAXFILE && bn * BSIZE < x.size
      ensures FileBlock(e, x.addrs, bn) != 0
    {
      assert FileBlock(d, x.addrs, bn) != 0;
      assert Slot(e, x.addrs, FileSlot(bn)) == Slot(d, x.addrs, FileSlot(bn));
    }
  }

  /** After any trail the file is the one it began with, with what the transactions have
      written spliced in, and the file system is consistent. */
  lemma {:induction false} TrailHolds(sb: Super, inum: nat, off: nat, tr: Trail)
    requires TrailOk(sb, inum, off, tr) && InOrder(sb, inum, First(tr))
    ensures FileIs(sb, inum, off, First(tr), Bytes(tr), tr.disk)
  {
    if !tr.Start? {
      TrailHolds(sb, inum, off, tr.before);
      if tr.Mine? {
        MineStep(sb, inum, off, tr);
      } else {
        TheirsStep(sb, inum, off, tr);
      }
    }
  }

  lemma MineStep(sb: Super, inum: nat, off: nat, tr: Trail)
    requires tr.Mine? && TrailOk(sb, inum, off, tr)
    requires FileIs(sb, inum, off, First(tr.before), Bytes(tr.before), tr.before.disk)
    ensures FileIs(sb, inum, off, First(tr), Bytes(tr), tr.disk)
  {
    MineHolds(sb, inum, off, First(tr.before), Bytes(tr.before), tr.before.disk, tr.bytes, tr.disk);
  }

  lemma TheirsStep(sb: Super, inum: nat, off: nat, tr: Trail)
    requires tr.Theirs? && TrailOk(sb, inum, off, tr)
    requires FileIs(sb, inum, off, First(tr.before), Bytes(tr.before), tr.before.disk)
    ensures FileIs(sb, inum, off, First(tr), Bytes(tr), tr.disk)
  {
    TheirsHolds(sb, inum, off, First(tr.before), Bytes(tr.before), tr.before.disk, tr.inode, tr.disk);
  }

  /** If all the operations are the filewrite's, every other file is as it was. */
  lemma {:induction false} TrailSpares(sb: Super, inum: nat, off: nat, tr: Trail)
    requires TrailOk(sb, inum, off, tr) && InOrder(sb, inum, First(tr)) && AllMine(tr)
    ensures OthersKept(sb, First(tr), inum, tr.disk)
    ensures Bytes(tr) == [] ==> tr.disk == First(tr)
  {
    if tr.Mine? {
      TrailSpares(sb, inum, off, tr.before);
      OthersTrans(sb, First(tr), inum, tr.before.disk, tr.disk);
    }
  }

  // ---- whole chunks ----

  /** How many of the operations are the filewrite's. */
  function Own(tr: Trail): nat {
    if tr.Start? then 0 else Own(tr.before) + if tr.Mine? then 1 else 0
  }

  /** Bytes in the first k chunks of src. */
  function Upto(src: seq<byte>, k: nat): (n: nat)
    ensures n <= |src|
  {
    Min(k * MAXCHUNK, |src|)
  }

  /** The filewrite's transactions write src, a chunk each. */
  ghost predicate Chunks(src: seq<byte>, tr: Trail) {
    !tr.Start? ==>
      && Chunks(src, tr.before)
      && (tr.Mine? ==> var i := Upto(src, Own(tr.before));
                       i < |src| && tr.bytes == src[i..i + Min(|src| - i, MAXCHUNK)])
  }

  lemma {:induction false} ChunksBytes(src: seq<byte>, tr: Trail)
    requires Chunks(src, tr)
    ensures Bytes(tr) == src[..Upto(src, Own(tr))]
  {
    if !tr.Start? {
      ChunksBytes(src, tr.before);
    }
  }

  lemma ChunksNext(src: seq<byte>, tr: Trail, i: nat, n: nat, ws: seq<LogMachine.Write>, e: Disk)
    requires Chunks(src, tr) && i == Upto(src, Own(tr)) < |src| && n == Min(|src| - i, MAXCHUNK)
    ensures var next := Mine(tr, src[i..i + n], ws, e);
            Chunks(src, next) && i + n == Upto(src, Own(next))
  {
  }

  lemma {:induction false} AllMineOwn(tr: Trail)
    requires AllMine(tr)
    ensures Own(tr) == Len(tr)
  {
    if tr.Mine? {
      AllMineOwn(tr.before);
    }
  }

  /** The trail was such a trail after each of its operations. */
  lemma {:induction false} TrailAt(sb: Super, inum: nat, off: nat, src: seq<byte>, tr: Trail, k: nat)
    requires TrailOk(sb, inum, off, tr) && Chunks(src, tr) && k <= Len(tr)
    ensures TrailOk(sb, inum, off, At(tr, k)) && Chunks(src, At(tr, k)) && First(At(tr, k)) == First(tr)
    ensures AllMine(tr) ==> AllMine(At(tr, k))
  {
    if k < Len(tr) {
      TrailAt(sb, inum, off, src, tr.before, k);
    }
  }
}
