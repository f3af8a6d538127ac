/** A crash anywhere in filewrite: the log's whole operations and the file system's whole
    chunks put together, on one disk. */
module FileCrash {
  import opened Basics
  import opened Words
  import opened Bitmap
  import opened Inode
  import opened FileContent
  import opened Dinode
  import opened Volume
  import opened Trails
  import LogFormat
  import LogMachine
  import LogProofs
  import LogSerial

  /** The log lies before the inodes, as mkfs lays out the disk. */
  ghost predicate LogBelow(g: LogFormat.Geometry, sb: Super) {
    g.blocks == sb.size && g.start + g.size <= sb.inodestart
  }

  /** e is d outside the log, boot block and superblock. */
  ghost predicate SameFs(sb: Super, d: Disk, e: Disk) {
    FsDisk(sb, d) && FsDisk(sb, e) && forall b | sb.inodestart <= b < sb.size :: e[b] == d[b]
  }

  // ---- the file system lies outside the log ----

  lemma DinoSame(sb: Super, d: Disk, e: Disk, j: nat)
    requires SameFs(sb, d, e) && j < sb.ninodes
    ensures ReadDino(sb, e, j) == ReadDino(sb, d, j)
  {
    assert e[InodeBlock(sb, j)] == d[InodeBlock(sb, j)];
  }

  lemma SlotSame(sb: Super, d: Disk, e: Disk, addrs: seq<nat>, i: nat)
    requires SameFs(sb, d, e) && SlotsOk(sb, d, addrs) && i < NSLOT
    ensures Slot(e, addrs, i) == Slot(d, addrs, i)
  {
    assert Slot(d, addrs, NDIRECT) == addrs[NDIRECT];
    if addrs[NDIRECT] != 0 {
      assert e[addrs[NDIRECT]] == d[addrs[NDIRECT]];
    }
  }

  lemma SlotsSame(sb: Super, d: Disk, e: Disk, addrs: seq<nat>)
    requires SameFs(sb, d, e) && SlotsOk(sb, d, addrs)
    ensures SlotsOk(sb, e, addrs)
  {
    forall i | 0 <= i < NSLOT
      ensures Slot(e, addrs, i) == Slot(d, addrs, i)
    {
      SlotSame(sb, d, e, addrs, i);
    }
    forall i, j | 0 <= i < NSLOT && 0 <= j < NSLOT
      ensures Apart(e, addrs, i, j)
    {
      assert Apart(d, addrs, i, j);
    }
  }

  lemma HasSame(sb: Super, d: Disk, e: Disk, j: nat, b: nat)
    requires SameFs(sb, d, e) && Consistent(sb, d)
    ensures Has(sb, e, j, b) <==> Has(sb, d, j, b)
  {
    if j < sb.ninodes {
      DinoSame(sb, d, e, j);
      forall i | 0 <= i < NSLOT
        ensures Slot(e, Addrs(sb, d, j), i) == Slot(d, Addrs(sb, d, j), i)
      {
        SlotSame(sb, d, e, Addrs(sb, d, j), i);
      }
      OwnsSame(d, e, Addrs(sb, d, j), b);
    }
  }

  lemma UsedSame(sb: Super, d: Disk, e: Disk, b: nat)
    requires SameFs(sb, d, e) && b < sb.size
    ensures Used(sb, e, b) == Used(sb, d, b)
  {
    assert b / BPB <= sb.size / BPB;
    assert e[BitmapBlock(sb, b)] == d[BitmapBlock(sb, b)];
  }

  lemma ConsistentSame(sb: Super, d: Disk, e: Disk)
    requires SameFs(sb, d, e) && Consistent(sb, d)
    ensures Consistent(sb, e)
  {
    forall j | 0 <= j < sb.ninodes
      ensures SlotsOk(sb, e, Addrs(sb, e, j))
    {
      DinoSame(sb, d, e, j);
      SlotsSame(sb, d, e, Addrs(sb, d, j));
    }
    forall i: nat, j: nat, b: nat | Has(sb, e, i, b) && Has(sb, e, j, b)
      ensures i == j
    {
      HasSame(sb, d, e, i, b);
      HasSame(sb, d, e, j, b);
    }
    forall b | 0 <= b < sb.size
      ensures Used(sb, e, b) <==> b < DataStart(sb) || exists j: nat :: Has(sb, e, j, b)
    {
      UsedSame(sb, d, e, b);
      if j: nat :| Has(sb, d, j, b) {
        HasSame(sb, d, e, j, b);
      }
      if j: nat :| Has(sb, e, j, b) {
        HasSame(sb, d, e, j, b);
      }
    }
  }

  lemma {:induction false} ContentSame(sb: Super, d: Disk, e: Disk, addrs: seq<nat>, n: nat)
    requires SameFs(sb, d, e) && SlotsOk(sb, d, addrs) && n <= MAXBYTES
    ensures Content(e, addrs, n) == Content(d, addrs, n)
  {
    if n > 0 {
      ContentSame(sb, d, e, addrs, n - 1);
      SlotSame(sb, d, e, addrs, FileSlot((n - 1) / BSIZE));
    }
  }

  lemma InOrderSame(sb: Super, inum: nat, d: Disk, e: Disk)
    requires SameFs(sb, d, e) && InOrder(sb, inum, d)
    ensures InOrder(sb, inum, e)
  {
    var x := ReadDino(sb, d, inum);
    ConsistentSame(sb, d, e);
    DinoSame(sb, d, e, inum);
    assert SlotsOk(sb, d, Addrs(sb, d, inum));
    forall bn | 0 <= bn < MAXFILE && bn * BSIZE < x.size
      ensures FileBlock(e, x.addrs, bn) != 0
    {
      SlotSame(sb, d, e, x.addrs, FileSlot(bn));
      assert FileBlock(d, x.addrs, bn) != 0;
    }
  }

  lemma FileSame(sb: Super, inum: nat, off: nat, d0: Disk, t: seq<byte>, d: Disk, e: Disk)
    requires FileIs(sb, inum, off, d0, t, d) && SameFs(sb, d, e)
    ensures FileIs(sb, inum, off, d0, t, e)
  {
    InOrderSame(sb, inum, d, e);
    DinoSame(sb, d, e, inum);
    assert SlotsOk(sb, d, Addrs(sb, d, inum));
    ContentSame(sb, d, e, ReadDino(sb, d, inum).addrs, ReadDino(sb, d, inum).size);
  }

  lemma OthersSame(sb: Super, d0: Disk, inum: nat, d: Disk, e: Disk)
    requires SameFs(sb, d, e) && OthersKept(sb, d0, inum, d)
    ensures OthersKept(sb, d0, inum, e)
  {
    forall j | 0 <= j < sb.ninodes && j != inum
      ensures ReadDino(sb, e, j) == ReadDino(sb, d0, j)
    {
      DinoSame(sb, d, e, j);
      assert ReadDino(sb, d, j) == ReadDino(sb, d0, j);
    }
  }

  // ---- from operations to chunks ----

  /** The same blocks with the same contents, whatever the operation is called. */
  ghost predicate SameWrites(ws: seq<LogMachine.Write>, vs: seq<LogMachine.Write>) {
    |ws| == |vs| && forall i | 0 <= i < |ws| :: ws[i].block == vs[i].block && ws[i].data == vs[i].data
  }

  lemma {:induction false} ApplySame(d: LogFormat.Disk, e: LogFormat.Disk,
                                     ws: seq<LogMachine.Write>, vs: seq<LogMachine.Write>, b: nat)
    requires |d| == |e| && b < |d| && d[b] == e[b] && SameWrites(ws, vs)
    ensures LogMachine.ApplyWrites(d, ws)[b] == LogMachine.ApplyWrites(e, vs)[b]
    decreases |ws|
  {
    if ws != [] {
      ApplySame(d, e, ws[..|ws| - 1], vs[..|vs| - 1], b);
    }
  }

  /** The operations from o0 on made the log_writes of the trail, one each. */
  ghost predicate Made(ops: seq<LogMachine.Op>, o0: nat, tr: Trail)
    requires o0 + Len(tr) <= |ops|
  {
    !tr.Start? ==> Made(ops, o0, tr.before) && SameWrites(ops[o0 + Len(tr.before)].writes, tr.writes)
  }

  /** The trail is what the operations finished since o0 did. */
  ghost predicate Describes(ops: seq<LogMachine.Op>, o0: nat, tr: Trail) {
    && o0 + Len(tr) <= |ops| && Made(ops, o0, tr)
    && forall o | o0 + Len(tr) <= o < |ops| :: !ops[o].finished
  }

  lemma {:induction false} MadeAt(ops: seq<LogMachine.Op>, o0: nat, tr: Trail, k: nat)
    requires o0 + Len(tr) <= |ops| && Made(ops, o0, tr) && k <= Len(tr)
    ensures Made(ops, o0, At(tr, k))
  {
    if k < Len(tr) {
      MadeAt(ops, o0, tr.before, k);
    }
  }

  lemma {:induction false} MadeReaches(g: LogFormat.Geometry, sb: Super, inum: nat, off: nat,
                                       base: Disk, ops: seq<LogMachine.Op>, o0: nat, m: nat, tr: Trail)
    requires TrailOk(sb, inum, off, tr) && LogFormat.SameHome(g, base, First(tr))
    requires m == o0 + Len(tr) <= |ops| && Made(ops, o0, tr)
    ensures LogFormat.SameHome(g, LogSerial.OpsDisk(base, ops, o0, m), tr.disk)
  {
    if !tr.Start? {
      var b := tr.before;
      MadeReaches(g, sb, inum, off, base, ops, o0, m - 1, b);
      OpReaches(g, LogSerial.OpsDisk(base, ops, o0, m - 1), b.disk, ops[m - 1].writes, tr.writes);
    }
  }

  lemma OpReaches(g: LogFormat.Geometry, d: Disk, e: Disk, ws: seq<LogMachine.Write>, vs: seq<LogMachine.Write>)
    requires LogFormat.SameHome(g, d, e) && SameWrites(ws, vs)
    ensures LogFormat.SameHome(g, LogMachine.ApplyWrites(d, ws), LogMachine.ApplyWrites(e, vs))
  {
    forall b {:trigger LogFormat.Home(g, b)} | LogFormat.Home(g, b)
      ensures LogMachine.ApplyWrites(d, ws)[b] == LogMachine.ApplyWrites(e, vs)[b]
    {
      ApplySame(d, e, ws, vs, b);
    }
  }

  lemma HomeSameFs(g: LogFormat.Geometry, sb: Super, d: Disk, m: Disk, e: Disk)
    requires LogBelow(g, sb) && FsDisk(sb, d) && LogFormat.SameHome(g, m, d) && LogFormat.SameHome(g, e, m)
    ensures SameFs(sb, d, e)
  {
    forall b | sb.inodestart <= b < sb.size
      ensures e[b] == d[b]
    {
      assert LogFormat.Home(g, b);
    }
  }

  /** e holds the file system after the first k operations of the trail: it is
      consistent, the file is the one the trail began with, with a whole number of chunks
      of src spliced in at off, and, if nobody else did anything, every other file is as
      it was. */
  ghost predicate Survives(sb: Super, inum: nat, off: nat, src: seq<byte>, tr: Trail, k: nat, e: Disk)
    requires k <= Len(tr)
  {
    && FileIs(sb, inum, off, First(tr), src[..Upto(src, Own(At(tr, k)))], e)
    && (AllMine(tr) ==> Own(At(tr, k)) == k && OthersKept(sb, First(tr), inum, e))
  }

  lemma TrailSurvives(sb: Super, inum: nat, off: nat, src: seq<byte>, tr: Trail, k: nat, e: Disk)
    requires TrailOk(sb, inum, off, tr) && Chunks(src, tr) && InOrder(sb, inum, First(tr))
    requires k <= Len(tr) && SameFs(sb, At(tr, k).disk, e)
    ensures Survives(sb, inum, off, src, tr, k, e)
  {
    var t := At(tr, k);
    TrailAt(sb, inum, off, src, tr, k);
    ChunksBytes(src, t);
    TrailHolds(sb, inum, off, t);
    FileSame(sb, inum, off, First(tr), Bytes(t), t.disk, e);
    if AllMine(tr) {
      AllMineOwn(t);
      TrailSpares(sb, inum, off, t);
      OthersSame(sb, First(tr), inum, t.disk, e);
    }
  }

  /** What recovery of the disk of s would give is the file system after the operations
      since o0 that are durable, and at most the last is missing. */
  ghost predicate SurvivesCrash(g: LogFormat.Geometry, sb: Super, o0: nat, s: LogMachine.State,
                                inum: nat, off: nat, src: seq<byte>, tr: Trail) {
    && o0 <= LogSerial.Durable(s) <= o0 + Len(tr) && |s.ops| - 1 <= LogSerial.Durable(s) && LogFormat.HeadOk(g, s.disk)
    && Survives(sb, inum, off, src, tr, LogSerial.Durable(s) - o0, LogFormat.Recovered(g, s.disk))
  }

  /** After any run, up to a moment when no operation is active and the log is settled, a
      filewrite begins; its transactions, and operations of others on other inodes, then
      follow one another. Stop the machine anywhere and recover: the file system is
      consistent, and the file is the old one with a whole number of chunks spliced in,
      those of all the operations except perhaps the last. */
  lemma FilewriteCrashSafe(g: LogFormat.Geometry, sb: Super, d: Disk, n: nat,
                           es0: seq<LogMachine.Event>, s0: LogMachine.State, es: seq<LogMachine.Event>, s: LogMachine.State,
                           inum: nat, off: nat, src: seq<byte>, tr: Trail)
    requires LogFormat.HeadOk(g, d) && LogBelow(g, sb)
    requires LogMachine.Fits(g, LogMachine.Boot(d, n), es0) && LogMachine.Exec(g, LogMachine.Boot(d, n), es0) == Some(s0)
    requires LogProofs.Quiet(s0) && LogSerial.Serial(g, s0, es) && LogMachine.Exec(g, s0, es) == Some(s)
    requires LogFormat.SameHome(g, LogMachine.ApplyGroups(LogFormat.Recovered(g, d), s0.committed), First(tr))
    requires TrailOk(sb, inum, off, tr) && Chunks(src, tr) && InOrder(sb, inum, First(tr))
    requires Describes(s.ops, |s0.ops|, tr)
    ensures SurvivesCrash(g, sb, |s0.ops|, s, inum, off, src, tr)
  {
    var base := LogMachine.ApplyGroups(LogFormat.Recovered(g, d), s0.committed);
    LogSerial.SerialCrashSafe(g, d, n, es0, s0, es, s);
    AllDescribed(g, base, |s0.ops|, s, tr);
    Recovers(g, sb, base, |s0.ops|, s, inum, off, src, tr);
  }

  /** The durable operations are finished, so the trail has them all. */
  lemma AllDescribed(g: LogFormat.Geometry, base: Disk, o0: nat, s: LogMachine.State, tr: Trail)
    requires LogSerial.WholeOps(g, base, o0, s) && Describes(s.ops, o0, tr)
    ensures LogSerial.Durable(s) <= o0 + Len(tr)
  {
    LastFinished(g, base, o0, s, o0 + Len(tr));
  }

  lemma LastFinished(g: LogFormat.Geometry, base: Disk, o0: nat, s: LogMachine.State, o: nat)
    requires LogSerial.WholeOps(g, base, o0, s)
    ensures o0 <= o < |s.ops| && !s.ops[o].finished ==> LogSerial.Durable(s) <= o
  {
  }

  lemma Recovers(g: LogFormat.Geometry, sb: Super, base: Disk, o0: nat, s: LogMachine.State,
                 inum: nat, off: nat, src: seq<byte>, tr: Trail)
    requires LogBelow(g, sb) && LogFormat.HeadOk(g, s.disk) && |s.ops| - 1 <= LogSerial.Durable(s)
    requires o0 <= LogSerial.Durable(s) <= o0 + Len(tr) <= |s.ops| && Made(s.ops, o0, tr)
    requires LogFormat.SameHome(g, LogFormat.Recovered(g, s.disk), LogSerial.OpsDisk(base, s.ops, o0, LogSerial.Durable(s)))
    requires LogFormat.SameHome(g, base, First(tr))
    requires TrailOk(sb, inum, off, tr) && Chunks(src, tr) && InOrder(sb, inum, First(tr))
    ensures SurvivesCrash(g, sb, o0, s, inum, off, src, tr)
  {
    RecoversTo(g, sb, base, s.ops, o0, LogSerial.Durable(s), LogFormat.Recovered(g, s.disk), inum, off, src, tr);
  }

  lemma RecoversTo(g: LogFormat.Geometry, sb: Super, base: Disk, ops: seq<LogMachine.Op>, o0: nat, m: nat, e: Disk,
                   inum: nat, off: nat, src: seq<byte>, tr: Trail)
    requires LogBelow(g, sb) && o0 <= m <= o0 + Len(tr) <= |ops| && Made(ops, o0, tr)
    requires LogFormat.SameHome(g, base, First(tr)) && LogFormat.SameHome(g, e, LogSerial.OpsDisk(base, ops, o0, m))
    requires TrailOk(sb, inum, off, tr) && Chunks(src, tr) && InOrder(sb, inum, First(tr))
    ensures Survives(sb, inum, off, src, tr, m - o0, e)
  {
    var k := m - o0;
    assert SameFs(sb, At(tr, k).disk, e) by {
      TrailAt(sb, inum, off, src, tr, k);
      MadeAt(ops, o0, tr, k);
      Reached(g, sb, inum, off, base, ops, o0, m, At(tr, k), e);
    }
    TrailSurvives(sb, inum, off, src, tr, k, e);
  }

  lemma Reached(g: LogFormat.Geometry, sb: Super, inum: nat, off: nat,
                base: Disk, ops: seq<LogMachine.Op>, o0: nat, m: nat, tr: Trail, e: Disk)
    requires LogBelow(g, sb) && m == o0 + Len(tr) <= |ops| && Made(ops, o0, tr)
    requires TrailOk(sb, inum, off, tr) && InOrder(sb, inum, First(tr))
    requires LogFormat.SameHome(g, base, First(tr)) && LogFormat.SameHome(g, e, LogSerial.OpsDisk(base, ops, o0, m))
    ensures SameFs(sb, tr.disk, e)
  {
    MadeReaches(g, sb, inum, off, base, ops, o0, m, tr);
    TrailHolds(sb, inum, off, tr);
    HomeSameFs(g, sb, tr.disk, LogSerial.OpsDisk(base, ops, o0, m), e);
  }
}
