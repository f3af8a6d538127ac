/** filewrite: a write cut into transactions small enough for the log. */
module File {
  import opened Words
  import opened Bitmap
  import opened FileContent
  import opened Dinode
  import opened Fs
  import opened Trails
  import LogFormat
  import LogMachine

  class OpenFile {
    const writable: bool
    const ip: MemInode
    var off: nat

    constructor (writable: bool, ip: MemInode)
      ensures this.writable == writable && this.ip == ip && off == 0
    {
      this.writable, this.ip, this.off := writable, ip, 0;
    }
  }

  /** A chunk fits the reservation of one operation. */
  lemma OpBudget(d: Disk, x: Dino, off: nat, n: nat)
    requires NoHoles(d, x.addrs, x.size) && off <= x.size && off + n <= MAXBYTES && n <= MAXCHUNK
    ensures MAXCHUNK == (LogFormat.MAXOPBLOCKS - 1 - 1 - 2) / 2 * BSIZE
    ensures Cost(d, x.addrs, off, n) <= LogFormat.MAXOPBLOCKS
  {
    ChunkBudget(d, x.addrs, x.size, off, n);
  }

  /** filewrite on an inode. A file not open for writing fails with nothing done. `tr` is
      its transactions, `most` the most blocks one of them logged. */
  method Filewrite(fs: FileSystem, f: OpenFile, src: seq<byte>)
    returns (r: Outcome, i: nat, ghost tr: Trail, ghost most: nat)
    requires fs.Synced(f.ip) && f.off + |src| < WORD_LIMIT
    modifies fs, f`off, f.ip`addrs, f.ip`size
    ensures !f.writable ==> r == Failed && i == 0 && fs.disk == old(fs.disk) && f.off == old(f.off)
    ensures f.writable ==> WriteReport(fs, f, src, old(fs.disk), old(f.off), r, i, tr, most)
    ensures f.writable && !r.Panic? ==> Written(fs, f, src[..i], old(fs.disk), old(f.off))
  {
    if !f.writable {
      return Failed, 0, Start(fs.disk), 0;
    }
    r, i, tr, most := WriteAll(fs, f, src);
    TrailHolds(fs.sb, f.ip.inum, old(f.off), tr);
    TrailSpares(fs.sb, f.ip.inum, old(f.off), tr);
    ChunksBytes(src, tr);
  }

  /** The file has t spliced in at off, every other file is as on d0, and the file system
      is consistent, with the inode in memory the one on disk. */
  ghost predicate Written(fs: FileSystem, f: OpenFile, t: seq<byte>, d0: Disk, off: nat)
    reads fs, f, f.ip
  {
    && fs.Synced(f.ip) && f.off == off + |t| && Sane(fs.sb, d0, f.ip.inum, fs.disk, f.ip.AsDino())
    && (if t == [] then fs.disk == d0
        else Appended(d0, ReadDino(fs.sb, d0, f.ip.inum), t, off, fs.disk, f.ip.AsDino()))
  }

  /** How filewrite ends: i is the number of bytes written. */
  ghost predicate WriteReport(fs: FileSystem, f: OpenFile, src: seq<byte>, d0: Disk, off: nat,
                              r: Outcome, i: nat, tr: Trail, most: nat)
    reads fs, f, f.ip
  {
    // no transaction outgrows what begin_op reserved for it
    && most <= LogFormat.MAXOPBLOCKS
    // they are its own, from the disk it began with, and write whole chunks of src
    && First(tr) == d0 && AllMine(tr) && TrailOk(fs.sb, f.ip.inum, off, tr)
    && Chunks(src, tr) && i == Upto(src, Own(tr))
    && (!r.Panic? ==> fs.disk == tr.disk && f.off == off + i && fs.Synced(f.ip))
    && (r.Done? ==> i == r.n == |src|)
    // a failure is for want of room for the next chunk
    && (r.Failed? ==> i < |src|)
    && (r.Failed? && f.ip.typ != T_DEV ==> f.off > f.ip.size || f.off + Min(|src| - i, MAXCHUNK) > MAXBYTES)
  }

  /** filewrite's loop. */
  method WriteAll(fs: FileSystem, f: OpenFile, src: seq<byte>)
    returns (r: Outcome, i: nat, ghost tr: Trail, ghost most: nat)
    requires fs.Synced(f.ip) && f.off + |src| < WORD_LIMIT
    modifies fs, f`off, f.ip`addrs, f.ip`size
    ensures WriteReport(fs, f, src, old(fs.disk), old(f.off), r, i, tr, most)
  {
    i, tr, most := 0, Start(fs.disk), 0;
    while i < |src|
      invariant i == Upto(src, Own(tr)) && f.off == old(f.off) + i && most <= LogFormat.MAXOPBLOCKS
      invariant fs.Synced(f.ip) && fs.disk == tr.disk
      invariant First(tr) == old(fs.disk) && AllMine(tr) && TrailOk(fs.sb, f.ip.inum, old(f.off), tr)
      invariant Chunks(src, tr)
    {
      var n1 := Min(|src| - i, MAXCHUNK);
      ghost var before := tr;
      ChunksBytes(src, tr);
      r, tr := NextOp(fs, f, src[i..i + n1], old(f.off), tr);
      if !r.Done? {
        return;
      }
      ChunksNext(src, before, i, n1, fs.writes, fs.disk);
      i, most := i + n1, Max(most, |fs.logged|);
    }
    r := Done(|src|);
  }

  /** One turn of the loop: the transaction that writes the next bytes. */
  method NextOp(fs: FileSystem, f: OpenFile, s: seq<byte>, ghost off: nat, ghost tr: Trail)
    returns (r: Outcome, ghost next: Trail)
    requires fs.Synced(f.ip) && f.off + |s| < WORD_LIMIT && 0 < |s| <= MAXCHUNK
    requires TrailOk(fs.sb, f.ip.inum, off, tr) && fs.disk == tr.disk && f.off == off + |Bytes(tr)|
    modifies fs, f`off, f.ip`addrs, f.ip`size
    ensures r.Done? ==> f.off == old(f.off) + |s| && fs.Synced(f.ip) && |fs.logged| <= LogFormat.MAXOPBLOCKS
    ensures r.Done? ==> next == Mine(tr, s, fs.writes, fs.disk)
    ensures TrailOk(fs.sb, f.ip.inum, off, next)
    ensures !r.Done? ==> next == tr
    ensures r.Failed? && f.ip.typ != T_DEV ==> f.off > f.ip.size || f.off + |s| > MAXBYTES
    ensures r.Failed? || r.Device? ==> unchanged(f) && unchanged(f.ip) && fs.disk == old(fs.disk)
  {
    next := tr;
    r := WriteOp(fs, f, s);
    if r.Done? {
      TrailNext(fs.sb, f.ip.inum, off, tr, old(fs.disk), old(f.off), s, fs.writes, fs.disk);
      next := Mine(tr, s, fs.writes, fs.disk);
    }
  }

  /** One transaction of filewrite. */
  method WriteOp(fs: FileSystem, f: OpenFile, s: seq<byte>) returns (r: Outcome)
    requires fs.Synced(f.ip) && f.off + |s| < WORD_LIMIT && 0 < |s| <= MAXCHUNK
    modifies fs, f`off, f.ip`addrs, f.ip`size
    ensures r.Done? ==> r.n == |s| && f.off == old(f.off) + |s| && |fs.logged| <= LogFormat.MAXOPBLOCKS
    ensures r.Done? ==> fs.Synced(f.ip) && fs.disk == LogMachine.ApplyWrites(old(fs.disk), fs.writes)
    ensures r.Done? ==> fs.disk in Chunked(fs.sb, f.ip.inum, old(f.off), s, old(fs.disk))
    ensures r.Failed? && f.ip.typ != T_DEV ==> f.off > f.ip.size || f.off + |s| > MAXBYTES
    ensures r.Failed? || r.Device? ==> unchanged(f) && unchanged(f.ip) && fs.disk == old(fs.disk)
  {
    fs.BeginOp();
    ghost var d, x := fs.disk, f.ip.AsDino();
    r := fs.Writei(f.ip, s, f.off);
    if r.Done? {
      OpBudget(d, x, f.off, |s|);
      f.off := f.off + r.n;
    }
  }
}
