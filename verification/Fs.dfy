/** The block and inode operations of fs.c on a disk seen through the buffer cache,
    with the set of blocks each passes to log_write. */
module Fs {
  import opened Basics
  import opened Words
  import opened Bitmap
  import opened Inode
  import opened FileContent
  import opened Dinode
  import opened Volume
  import opened Trunc
  import opened Settle
  import LogMachine

  const T_DEV: Short := 3
  const NDEV: Short := 10

  /** How a transfer ends: -1, a panic, a call into devsw, or n bytes moved. */
  datatype Outcome = Failed | Panic | Device(major: Short) | Done(n: nat)

  /** The in-memory copy of an inode. */
  class MemInode {
    const inum: nat
    var typ: Short
    var major: Short
    var minor: Short
    var nlink: Short
    var size: nat
    var addrs: seq<nat>

    constructor (inum: nat, x: Dino)
      ensures this.inum == inum && AsDino() == x
    {
      this.inum := inum;
      typ, major, minor, nlink, size, addrs := x.typ, x.major, x.minor, x.nlink, x.size, x.addrs;
    }

    function AsDino(): Dino
      reads this
    {
      Dino(typ, major, minor, nlink, size, addrs)
    }
  }

  /** 1 if the indirect block exists and is in the transaction. */
  function IndLogged(addrs: seq<nat>, logged: set<nat>): nat
    requires |addrs| == NDIRECT + 1
  {
    if addrs[NDIRECT] != 0 && addrs[NDIRECT] in logged then 1 else 0
  }

  /** 0 if block a is in the transaction already. */
  function Unlogged(a: nat, logged: set<nat>): nat { if a in logged then 0 else 1 }

  /** off + n < off, on 32-bit unsigned integers. */
  predicate Wraps(off: nat, n: nat): (r: bool)
    requires off < WORD_LIMIT && n < WORD_LIMIT
    ensures r <==> off + n >= WORD_LIMIT
  {
    (off + n) % WORD_LIMIT < off
  }

  lemma SplitBlock(b: nat, bi: nat)
    requires b % BPB == 0 && bi < BPB
    ensures (b + bi) / BPB == b / BPB && (b + bi) % BPB == bi
  {
    assert b == BPB * (b / BPB);
  }

  class FileSystem {
    const sb: Super
    /** The major numbers with an entry in devsw. */
    const devices: set<int>
    /** What bread returns and log_write keeps. */
    var disk: Disk
    /** The blocks passed to log_write so far in this transaction. */
    ghost var logged: set<nat>
    /** The calls themselves, and the disk before the first. */
    ghost var writes: seq<LogMachine.Write>
    ghost var base: Disk

    constructor (sb: Super, devices: set<int>, disk: Disk)
      ensures this.sb == sb && this.devices == devices && this.disk == disk && logged == {}
    {
      this.sb, this.devices, this.disk, this.logged := sb, devices, disk, {};
      writes, base := [], disk;
    }

    /** The disk is what the transaction's log_writes make of the one it began with. */
    ghost predicate Replayed()
      reads this
    {
      disk == LogMachine.ApplyWrites(base, writes)
    }

    predicate HasDevice(major: Short) { 0 <= major < NDEV && major as int in devices }

    /** begin_op, as far as this transaction goes: nothing logged yet. */
    ghost method BeginOp()
      modifies this`logged, this`writes, this`base
      ensures logged == {} && base == disk && Replayed()
    {
      logged, writes, base := {}, [], disk;
    }

    method LogWrite(b: nat, v: Block)
      requires b < |disk|
      requires Replayed()
      modifies this
      ensures Replayed() && base == old(base)
      ensures disk == old(disk)[b := v]
      ensures forall x :: x in logged <==> x in old(logged) || x == b
      ensures |logged| == old(|logged| + Unlogged(b, logged))
    {
      LogMachine.ApplyWritesSnoc(base, writes, LogMachine.Write(0, b, v));
      writes := writes + [LogMachine.Write(0, b, v)];
      disk := disk[b := v];
      assert b in logged ==> logged + {b} == logged;
      logged := logged + {b};
    }

    /** balloc: the lowest free block, marked and zeroed; None is the panic. */
    method Balloc() returns (r: Option<nat>)
      requires FsDisk(sb, disk)
      requires Replayed()
      modifies this
      ensures Replayed() && base == old(base)
      ensures r.None? <==> old(FreeCount(sb, disk)) == 0
      ensures r.None? ==> disk == old(disk) && logged == old(logged)
      ensures r.Some? ==>
                && r.value < sb.size && !Used(sb, old(disk), r.value)
                && (forall c | 0 <= c < r.value :: Used(sb, old(disk), c))
                && disk == Taken(sb, old(disk), r.value)
                && (forall x :: x in logged <==> x in old(logged) || x == BitmapBlock(sb, r.value) || x == r.value)
                && |logged| <= old(|logged| + 2)
    {
      NoneFree(sb, disk, 0);
      var b, bi := FreeBit();
      if b >= sb.size {
        return None;
      }
      Mark(BitmapBlock(sb, b), b, bi);
      r := Some(b + bi);
    }

    /** balloc's search: the first clear bit, bi in the bitmap block that begins with
        block b; b is past the last block if there is none. */
    method FreeBit() returns (b: nat, bi: nat)
      requires FsDisk(sb, disk)
      ensures b % BPB == 0 && (b < sb.size ==> bi < BPB && b + bi < sb.size && !Used(sb, disk, b + bi))
      ensures forall c | 0 <= c < b + bi && c < sb.size :: Used(sb, disk, c)
    {
      b := 0;
      while b < sb.size
        invariant b % BPB == 0
        invariant forall c | 0 <= c < b && c < sb.size :: Used(sb, disk, c)
      {
        bi := 0;
        while bi < BPB && b + bi < sb.size
          invariant bi <= BPB
          invariant forall c | 0 <= c < b + bi && c < sb.size :: Used(sb, disk, c)
        {
          SplitBlock(b, bi);
          if !BlockBit(disk[BitmapBlock(sb, b)], bi) {
            return;
          }
          bi := bi + 1;
        }
        b := b + BPB;
      }
      bi := 0;
    }

    /** balloc, once it has found the bit: set it, and zero the block. */
    method Mark(bp: nat, b: nat, bi: nat)
      requires FsDisk(sb, disk) && b % BPB == 0 && bi < BPB && b + bi < sb.size && bp == BitmapBlock(sb, b)
      requires Replayed()
      modifies this
      ensures Replayed() && base == old(base)
      ensures disk == Taken(sb, old(disk), b + bi)
      ensures forall x :: x in logged <==> x in old(logged) || x == BitmapBlock(sb, b + bi) || x == b + bi
      ensures |logged| <= old(|logged| + 2)
    {
      SplitBlock(b, bi);
      LogWrite(bp, PutBlockBit(disk[bp], bi, true));
      LogWrite(b + bi, ZeroBlock());
    }

    /** bfree: ok is false for the panic on a block already free. */
    method Bfree(b: nat) returns (ok: bool)
      requires FsDisk(sb, disk) && b < sb.size
      requires Replayed()
      modifies this
      ensures Replayed() && base == old(base)
      ensures ok == Used(sb, old(disk), b)
      ensures ok ==>
                && disk == PutUsed(sb, old(disk), b, false)
                && (forall x :: x in logged <==> x in old(logged) || x == BitmapBlock(sb, b))
      ensures !ok ==> disk == old(disk) && logged == old(logged)
    {
      var bp := BitmapBlock(sb, b);
      assert b / BPB <= sb.size / BPB;
      if !BlockBit(disk[bp], b % BPB) {
        return false;
      }
      LogWrite(bp, PutBlockBit(disk[bp], b % BPB, false));
      ok := true;
    }

    /** bmap: None is a panic, for a block number out of range or a full disk. */
    method Bmap(ip: MemInode, bn: nat, ghost rest: set<nat>) returns (r: Option<nat>)
      requires Tied(sb, disk, ip.addrs, rest)
      requires Replayed()
      modifies this, ip`addrs
      ensures Replayed() && base == old(base)
      ensures r.None? <==> bn >= MAXFILE || old(FreeCount(sb, disk)) < old(Missing(disk, ip.addrs, bn))
      ensures r.Some? ==>
                && BmapEffect(sb, old(disk), old(ip.addrs), rest, bn, disk, ip.addrs, r.value)
                && FreeCount(sb, disk) + old(Missing(disk, ip.addrs, bn)) == old(FreeCount(sb, disk))
                && old(logged) <= logged
                && |logged| + Unlogged(r.value, logged) - IndLogged(ip.addrs, logged)
                   <= old(|logged| - IndLogged(ip.addrs, logged) + Missing(disk, ip.addrs, bn) + 1)
      ensures r.Some? && old(FileBlock(disk, ip.addrs, bn)) != 0 ==>
                disk == old(disk) && ip.addrs == old(ip.addrs) && logged == old(logged)
    {
      if bn < NDIRECT {
        r := Entry(ip, bn, rest);
        if r.Some? {
          DirectEffect(sb, old(disk), old(ip.addrs), rest, bn, disk, ip.addrs, r.value);
        }
        return;
      }
      if bn < MAXFILE {
        var i := Entry(ip, NDIRECT, rest);
        if i.None? {
          MissingIndirect(disk, ip.addrs, bn);
          return None;
        }
        ghost var e, eddrs := disk, ip.addrs;
        r := BmapIndirect(ip, bn - NDIRECT, rest);
        ThroughEntry(sb, old(disk), old(ip.addrs), i.value, rest, bn, e, eddrs);
        if r.Some? && old(ip.addrs)[NDIRECT] == 0 {
          ThroughIndirect(sb, old(disk), old(ip.addrs), i.value, rest, bn, disk, ip.addrs, r.value);
        }
        return;
      }
      r := None;
    }

    /** One of the inode's own entries, filled by balloc if it is empty. */
    method Entry(ip: MemInode, i: nat, ghost rest: set<nat>) returns (r: Option<nat>)
      requires Tied(sb, disk, ip.addrs, rest) && i <= NDIRECT
      requires Replayed()
      modifies this, ip`addrs
      ensures Replayed() && base == old(base)
      ensures r.None? <==> old(ip.addrs)[i] == 0 && old(FreeCount(sb, disk)) == 0
      ensures r.None? ==> disk == old(disk) && ip.addrs == old(ip.addrs)
      ensures r.Some? ==> Filled(sb, old(disk), old(ip.addrs), rest, i, disk, ip.addrs, r.value)
                          && old(logged) <= logged
      ensures r.Some? && old(ip.addrs)[i] != 0 ==> logged == old(logged)
      ensures r.Some? && old(ip.addrs)[i] == 0 ==> r.value in logged && |logged| <= old(|logged| + 2)
    {
      var addr := ip.addrs[i];
      if addr != 0 {
        return Some(addr);
      }
      r := Balloc();
      if r.Some? {
        EntryEffect(sb, old(disk), ip.addrs, i, r.value, rest);
        EntryCount(sb, old(disk), ip.addrs, i, r.value, rest);
        ip.addrs := ip.addrs[i := r.value];
      }
    }

    /** The rest of bmap, once there is an indirect block. */
    method BmapIndirect(ip: MemInode, k: nat, ghost rest: set<nat>) returns (r: Option<nat>)
      requires Tied(sb, disk, ip.addrs, rest) && k < NINDIRECT && ip.addrs[NDIRECT] != 0
      requires Replayed()
      modifies this
      ensures Replayed() && base == old(base)
      ensures r.None? <==> old(FreeCount(sb, disk)) < old(Missing(disk, ip.addrs, NDIRECT + k))
      ensures r.Some? ==>
                && BmapEffect(sb, old(disk), ip.addrs, rest, NDIRECT + k, disk, ip.addrs, r.value)
                && FreeCount(sb, disk) + old(Missing(disk, ip.addrs, NDIRECT + k)) == old(FreeCount(sb, disk))
                && old(logged) <= logged
                && |logged| + Unlogged(r.value, logged) - IndLogged(ip.addrs, logged)
                   <= old(|logged| - IndLogged(ip.addrs, logged) + Missing(disk, ip.addrs, NDIRECT + k) + 1)
      ensures r.Some? && old(FileBlock(disk, ip.addrs, NDIRECT + k)) != 0 ==>
                disk == old(disk) && logged == old(logged)
    {
      var ind := ip.addrs[NDIRECT];
      assert Slot(disk, ip.addrs, NDIRECT) == ind;
      var addr := GetWord(disk[ind], k);
      assert addr == FileBlock(disk, ip.addrs, NDIRECT + k);
      if addr != 0 {
        FoundEffect(sb, disk, ip.addrs, rest, NDIRECT + k);
        return Some(addr);
      }
      r := Balloc();
      if r.Some? {
        LogWrite(ind, PutWord(disk[ind], k, r.value));
        IndirectEffect(sb, old(disk), ip.addrs, k, r.value, rest);
        IndirectAdds(sb, old(disk), ip.addrs, k, r.value, rest);
        AddedCount(sb, old(disk), ip.addrs, disk, ip.addrs, NDIRECT + 1 + k, r.value);
      }
    }

    // ---- inodes on disk ----

    /** iupdate. */
    method Iupdate(ip: MemInode)
      requires FsDisk(sb, disk) && ip.inum < sb.ninodes && DinoOk(ip.AsDino())
      requires Replayed()
      modifies this
      ensures Replayed() && base == old(base)
      ensures disk == WriteDino(sb, old(disk), ip.inum, ip.AsDino())
      ensures forall x :: x in logged <==> x in old(logged) || x == InodeBlock(sb, ip.inum)
      ensures |logged| == old(|logged| + Unlogged(InodeBlock(sb, ip.inum), logged))
    {
      var b := InodeBlock(sb, ip.inum);
      LogWrite(b, PutWords(disk[b], DWORDS * (ip.inum % IPB), Encode(ip.AsDino())));
    }

    /** The part of ilock that reads the inode in; ok is false for its panic. */
    method Ifill(ip: MemInode) returns (ok: bool)
      requires FsDisk(sb, disk) && ip.inum < sb.ninodes
      modifies ip
      ensures ip.AsDino() == ReadDino(sb, disk, ip.inum) && ok == (ip.typ != 0)
    {
      var x := Decode(InodeWords(sb, disk, ip.inum));
      ip.typ, ip.major, ip.minor, ip.nlink, ip.size, ip.addrs := x.typ, x.major, x.minor, x.nlink, x.size, x.addrs;
      ok := ip.typ != 0;
    }

    /** The file system is consistent, and the in-memory inode is the one on disk. */
    ghost predicate Synced(ip: MemInode)
      reads this, ip
    {
      && Consistent(sb, disk) && ip.inum < sb.ninodes
      && ReadDino(sb, disk, ip.inum) == ip.AsDino()
      && NoHoles(disk, ip.addrs, ip.size)
    }

    ghost function Bytes(ip: MemInode): seq<byte>
      requires |ip.addrs| == NDIRECT + 1 && ip.size <= MAXBYTES
      reads this, ip
    {
      Content(disk, ip.addrs, ip.size)
    }

    // ---- writei ----

    /** The loop of writei: src goes to offset off on; false is bmap's panic. */
    method CopyIn(ip: MemInode, src: seq<byte>, off: nat, ghost rest: set<nat>) returns (ok: bool)
      requires Tied(sb, disk, ip.addrs, rest) && off + |src| <= MAXBYTES && |src| > 0
      requires Replayed()
      modifies this, ip`addrs
      ensures Replayed() && base == old(base)
      ensures ok <==> old(FreeCount(sb, disk)) >= old(Need(disk, ip.addrs, off / BSIZE, Hi(off, |src|)))
      ensures ok ==>
                && WriteEffect(sb, old(disk), old(ip.addrs), rest, off / BSIZE, Hi(off, |src|), disk, ip.addrs)
                && BytesDone(old(disk), old(ip.addrs), off, src, |src|, disk, ip.addrs)
                && FreeCount(sb, disk) + old(Need(disk, ip.addrs, off / BSIZE, Hi(off, |src|))) == old(FreeCount(sb, disk))
                && |logged| <= old(|logged|) + Hi(off, |src|) - off / BSIZE
                               + old(Need(disk, ip.addrs, off / BSIZE, Hi(off, |src|))) + 1
    {
      var tot := 0;
      ProgressStart(sb, disk, ip.addrs, rest, off, src);
      while tot < |src|
        invariant tot <= |src| && Replayed() && base == old(base)
        invariant Progress(sb, old(disk), old(ip.addrs), rest, off, src, tot, disk, ip.addrs)
        invariant |logged| - IndLogged(ip.addrs, logged) + FreeCount(sb, disk)
                  <= old(|logged|) + Cur(off, src, tot) - off / BSIZE + old(FreeCount(sb, disk))
      {
        ok, tot := CopyStep(ip, src, off, tot, rest, old(disk), old(ip.addrs));
        if !ok {
          return;
        }
      }
      ok := true;
    }

    /** One turn of that loop: the chunk at tot, up to next. */
    method CopyStep(ip: MemInode, src: seq<byte>, off: nat, tot: nat,
                    ghost rest: set<nat>, ghost d0: Disk, ghost a0: seq<nat>) returns (ok: bool, next: nat)
      requires Progress(sb, d0, a0, rest, off, src, tot, disk, ip.addrs) && tot < |src|
      requires Replayed()
      modifies this, ip`addrs
      ensures Replayed() && base == old(base) && tot < next <= |src|
      ensures ok ==> Progress(sb, d0, a0, rest, off, src, next, disk, ip.addrs)
      ensures ok ==> |logged| - IndLogged(ip.addrs, logged) + FreeCount(sb, disk)
                     <= old(|logged| - IndLogged(ip.addrs, logged) + FreeCount(sb, disk))
                        + Cur(off, src, next) - Cur(off, src, tot)
      ensures !ok ==> FreeCount(sb, d0) < Need(d0, a0, off / BSIZE, Hi(off, |src|))
    {
      var m := Chunk(off + tot, |src| - tot);
      next := tot + m;
      ghost var e, a;
      ok, e, a := WriteChunk(ip, off + tot, src[tot..tot + m], rest);
      if ok {
        ProgressStep(sb, d0, a0, rest, off, src, tot, m, next, old(disk), old(ip.addrs), e, ip.addrs, a, disk);
      } else {
        ProgressStuck(sb, d0, a0, rest, off, src, tot, old(disk), old(ip.addrs));
      }
    }

    /** What that turn does to the disk: one block, or part of one. */
    method WriteChunk(ip: MemInode, o: nat, s: seq<byte>, ghost rest: set<nat>)
      returns (ok: bool, ghost e: Disk, ghost a: nat)
      requires Tied(sb, disk, ip.addrs, rest) && o < MAXBYTES && o % BSIZE + |s| <= BSIZE
      requires Replayed()
      modifies this, ip`addrs
      ensures Replayed() && base == old(base)
      ensures ok <==> old(FreeCount(sb, disk) >= Missing(disk, ip.addrs, o / BSIZE))
      ensures ok ==>
                && BmapEffect(sb, old(disk), old(ip.addrs), rest, o / BSIZE, e, ip.addrs, a)
                && disk == e[a := Splice(e[a], o % BSIZE, s)]
                && FreeCount(sb, e) + old(Missing(disk, ip.addrs, o / BSIZE)) == old(FreeCount(sb, disk))
                && |logged| - IndLogged(ip.addrs, logged)
                   <= old(|logged| - IndLogged(ip.addrs, logged) + Missing(disk, ip.addrs, o / BSIZE) + 1)
    {
      e, a := disk, 0;
      var r := Bmap(ip, o / BSIZE, rest);
      if r.None? {
        return false, e, a;
      }
      e, a := disk, r.value;
      LogWrite(r.value, Splice(disk[r.value], o % BSIZE, s));
      ok := true;
    }

    /** readi: dst is what it copies out. It never reaches balloc. */
    method Readi(ip: MemInode, off: nat, n: nat) returns (r: Outcome, dst: seq<byte>)
      requires Synced(ip) && off < WORD_LIMIT && n < WORD_LIMIT
      requires Replayed()
      modifies this, ip`addrs
      ensures Replayed() && base == old(base)
      ensures disk == old(disk) && logged == old(logged) && ip.addrs == old(ip.addrs)
      ensures ip.typ == T_DEV ==> r == if HasDevice(ip.major) then Device(ip.major) else Failed
      ensures ip.typ != T_DEV ==>
                r == if off > ip.size || off + n >= WORD_LIMIT then Failed else Done(Min(n, ip.size - off))
      ensures r.Done? ==> dst == Bytes(ip)[off..off + r.n]
    {
      dst := [];
      if ip.typ == T_DEV {
        r := if HasDevice(ip.major) then Device(ip.major) else Failed;
        return;
      }
      if off > ip.size || Wraps(off, n) {
        return Failed, dst;
      }
      var k := if off + n > ip.size then ip.size - off else n;
      ConsistentTied(sb, disk, ip.inum);
      dst := CopyOut(ip, off, k, Rest(sb, disk, ip.inum));
      r := Done(k);
    }

    /** The loop of readi. */
    method CopyOut(ip: MemInode, off: nat, k: nat, ghost rest: set<nat>) returns (dst: seq<byte>)
      requires Tied(sb, disk, ip.addrs, rest) && NoHoles(disk, ip.addrs, ip.size) && off + k <= ip.size
      requires Replayed()
      modifies this, ip`addrs
      ensures Replayed() && base == old(base)
      ensures disk == old(disk) && logged == old(logged) && ip.addrs == old(ip.addrs)
      ensures dst == Content(disk, ip.addrs, ip.size)[off..off + k]
    {
      dst := [];
      var tot := 0;
      ghost var c := Content(disk, ip.addrs, ip.size);
      while tot < k
        invariant tot <= k && Replayed() && base == old(base)
        invariant disk == old(disk) && logged == old(logged) && ip.addrs == old(ip.addrs)
        invariant dst == c[off..off + tot]
      {
        var m := Chunk(off + tot, k - tot);
        var s := ReadChunk(ip, off + tot, m, rest);
        assert c[off..off + tot] + c[off + tot..off + tot + m] == c[off..off + tot + m];
        dst := dst + s;
        tot := tot + m;
      }
    }

    /** One turn of readi's loop. */
    method ReadChunk(ip: MemInode, o: nat, m: nat, ghost rest: set<nat>) returns (s: seq<byte>)
      requires Tied(sb, disk, ip.addrs, rest) && NoHoles(disk, ip.addrs, ip.size)
      requires 0 < m && o + m <= ip.size && o % BSIZE + m <= BSIZE
      requires Replayed()
      modifies this, ip`addrs
      ensures Replayed() && base == old(base)
      ensures disk == old(disk) && logged == old(logged) && ip.addrs == old(ip.addrs)
      ensures s == Content(disk, ip.addrs, ip.size)[o..o + m]
    {
      BlockExists(sb, disk, ip.addrs, rest, ip.size, o);
      ReadBlock(sb, disk, ip.addrs, rest, ip.size, o, m);
      var a := Bmap(ip, o / BSIZE, rest);
      s := disk[a.value][o % BSIZE..o % BSIZE + m];
    }

    /** writei. */
    method Writei(ip: MemInode, src: seq<byte>, off: nat) returns (r: Outcome)
      requires Synced(ip) && off < WORD_LIMIT && |src| < WORD_LIMIT
      requires Replayed()
      modifies this, ip`addrs, ip`size
      ensures Replayed() && base == old(base)
      ensures ip.typ == T_DEV ==> r == if HasDevice(ip.major) then Device(ip.major) else Failed
      ensures ip.typ != T_DEV ==>
                && (r.Failed? <==> off > old(ip.size) || off + |src| > MAXBYTES)
                && (r.Panic? <==> off <= old(ip.size) && off + |src| <= MAXBYTES
                                  && old(FreeCount(sb, disk) < Need(disk, ip.addrs, off / BSIZE, Hi(off, |src|))))
                && !r.Device?
      ensures r.Failed? || r.Device? ==> unchanged(this) && unchanged(ip)
      ensures r.Done? ==> r.n == |src| && Written(old(disk), ip, src, off)
                          && |logged| <= old(|logged|) + Cost(old(disk), old(ip.addrs), off, |src|)
    {
      if ip.typ == T_DEV {
        return if HasDevice(ip.major) then Device(ip.major) else Failed;
      }
      if off > ip.size || Wraps(off, |src|) {
        return Failed;
      }
      if off + |src| > MAXBYTES {
        return Failed;
      }
      if |src| == 0 {
        WroteNothing(sb, disk, ip.inum, off);
        return Done(0);
      }
      var ok := Transfer(ip, src, off);
      r := if ok then Done(|src|) else Panic;
    }

    /** writei once its checks have passed; false is a panic. */
    method Transfer(ip: MemInode, src: seq<byte>, off: nat) returns (ok: bool)
      requires Synced(ip) && off <= ip.size && off + |src| <= MAXBYTES && |src| > 0
      requires Replayed()
      modifies this, ip`addrs, ip`size
      ensures Replayed() && base == old(base)
      ensures ok <==> old(FreeCount(sb, disk) >= Need(disk, ip.addrs, off / BSIZE, Hi(off, |src|)))
      ensures ok ==> Written(old(disk), ip, src, off)
                     && |logged| <= old(|logged|) + Cost(old(disk), old(ip.addrs), off, |src|)
    {
      ConsistentTied(sb, disk, ip.inum);
      ok := CopyIn(ip, src, off, Rest(sb, disk, ip.inum));
      if !ok {
        return;
      }
      ghost var e := disk;
      AddrsFit(sb, disk, ip.addrs);
      if off + |src| > ip.size {
        ip.size := off + |src|;
        Iupdate(ip);
      }
      WriteDone(sb, old(disk), ip.inum, src, off, e, ip.addrs, disk, ip.AsDino());
    }

    /** The file holds what it held with src spliced in at off; the file system is
        still consistent, and every other file is what it was. */
    ghost predicate Written(d: Disk, ip: MemInode, src: seq<byte>, off: nat)
      requires FsDisk(sb, d)
      reads this, ip
    {
      && Synced(ip) && OthersKept(sb, d, ip.inum, disk)
      && WroteFile(sb, d, ip.inum, src, off, disk, ip.AsDino())
      && (ip.inum < sb.ninodes && NoSpares(d, Addrs(sb, d, ip.inum), ReadDino(sb, d, ip.inum).size) ==>
            NoSpares(disk, ip.addrs, ip.size))
    }

    // ---- itrunc ----

    /** bfree of a block named in a slot of the inode being truncated; ok is false for
        bfree's panic. */
    method FreeSlot(a: nat, ghost d0: Disk, ghost a0: seq<nat>, ghost rest: set<nat>, ghost t: nat) returns (ok: bool)
      requires Freed(sb, d0, a0, rest, t, disk) && t < NSLOT && a == Slot(d0, a0, TruncSlot(t))
      requires Replayed()
      modifies this
      ensures Replayed() && base == old(base)
      ensures ok && Freed(sb, d0, a0, rest, t + 1, disk) && LogsBitmap(sb, old(logged), logged)
    {
      if a == 0 {
        FreedSkip(sb, d0, a0, rest, t, disk);
        return true;
      }
      SlotMarked(sb, d0, a0, rest, t, disk, a);
      ghost var e := disk;
      PutUsedAll(sb, e, a);
      ok := Bfree(a);
      FreedStep(sb, d0, a0, rest, t, e, a, disk);
    }

    /** itrunc's frees: all the inode's blocks; ok is false for a panic. */
    method FreeAll(ip: MemInode, ghost rest: set<nat>) returns (ok: bool)
      requires Tied(sb, disk, ip.addrs, rest)
      requires Replayed()
      modifies this, ip`addrs
      ensures Replayed() && base == old(base)
      ensures ok && ip.addrs == NoAddrs()
      ensures Freed(sb, old(disk), old(ip.addrs), rest, old(|ip.addrs|) + NINDIRECT, disk)
      ensures LogsBitmap(sb, old(logged), logged)
    {
      ghost var d0, a0 := disk, ip.addrs;
      FreedStart(sb, d0, a0, rest);
      var i := 0;
      while i < NDIRECT
        invariant i <= NDIRECT && |ip.addrs| == NDIRECT + 1 && Replayed() && base == old(base)
        invariant forall k | 0 <= k <= NDIRECT :: ip.addrs[k] == if k < i then 0 else a0[k]
        invariant Freed(sb, d0, a0, rest, i, disk) && LogsBitmap(sb, old(logged), logged)
      {
        ok := FreeSlot(ip.addrs[i], d0, a0, rest, i);
        if !ok { return; }
        ip.addrs := ip.addrs[i := 0];
        i := i + 1;
      }
      if ip.addrs[NDIRECT] != 0 {
        ok := FreeIndirect(ip.addrs[NDIRECT], d0, a0, rest);
        if !ok { return; }
        ip.addrs := ip.addrs[NDIRECT := 0];
      } else {
        FreedRest(sb, d0, a0, rest, NDIRECT, |a0| + NINDIRECT, disk);
      }
      assert ip.addrs == NoAddrs();
      ok := true;
    }

    method FreeIndirect(ind: nat, ghost d0: Disk, ghost a0: seq<nat>, ghost rest: set<nat>) returns (ok: bool)
      requires Freed(sb, d0, a0, rest, NDIRECT, disk) && a0[NDIRECT] == ind != 0
      requires Replayed()
      modifies this
      ensures Replayed() && base == old(base)
      ensures ok && Freed(sb, d0, a0, rest, |a0| + NINDIRECT, disk) && LogsBitmap(sb, old(logged), logged)
    {
      assert Slot(d0, a0, NDIRECT) == ind;
      var bp := disk[ind];
      var j := 0;
      while j < NINDIRECT
        invariant j <= NINDIRECT && bp == d0[ind] && Replayed() && base == old(base)
        invariant Freed(sb, d0, a0, rest, NDIRECT + j, disk) && LogsBitmap(sb, old(logged), logged)
      {
        ok := FreeSlot(GetWord(bp, j), d0, a0, rest, NDIRECT + j);
        if !ok { return; }
        j := j + 1;
      }
      ok := FreeSlot(ind, d0, a0, rest, NDIRECT + j);
    }

    /** itrunc: frees exactly the inode's blocks and cannot panic. It logs bitmap blocks
        and the inode's. */
    method Itrunc(ip: MemInode) returns (ok: bool)
      requires Synced(ip)
      requires Replayed()
      modifies this, ip`addrs, ip`size
      ensures Replayed() && base == old(base)
      ensures ok && Synced(ip) && ip.size == 0 && Bytes(ip) == [] && NoSpares(disk, ip.addrs, 0)
      ensures OthersKept(sb, old(disk), ip.inum, disk)
      ensures FreeCount(sb, disk) == old(FreeCount(sb, disk) + Blocks(disk, ip.addrs))
      ensures forall x | x in logged :: x in old(logged) || IsBitmapBlock(sb, x) || x == InodeBlock(sb, ip.inum)
      ensures |logged| <= old(|logged|) + sb.size / BPB + 2
    {
      ConsistentTied(sb, disk, ip.inum);
      ok := FreeAll(ip, Rest(sb, disk, ip.inum));
      if !ok { return; }
      BitmapCount(sb, old(logged), logged);
      ghost var e := disk;
      ip.size := 0;
      Iupdate(ip);
      TruncDone(sb, old(disk), ip.inum, e, disk, ip.AsDino());
    }
  }

  /** Only bitmap blocks have been added to the transaction. */
  ghost predicate LogsBitmap(sb: Super, l0: set<nat>, l1: set<nat>) {
    forall x | x in l1 :: x in l0 || IsBitmapBlock(sb, x)
  }

  ghost function Range(lo: nat, hi: nat): (r: set<nat>)
    ensures forall x :: x in r <==> lo <= x < hi
    ensures lo <= hi ==> |r| == hi - lo
    decreases hi - lo
  {
    if lo >= hi then {} else {lo} + Range(lo + 1, hi)
  }

  lemma {:induction false} SubsetCount(a: set<nat>, b: set<nat>)
    requires a <= b
    ensures |a| <= |b|
  {
    if x :| x in a {
      SubsetCount(a - {x}, b - {x});
    }
  }

  lemma BitmapCount(sb: Super, l0: set<nat>, l1: set<nat>)
    requires Layout(sb) && LogsBitmap(sb, l0, l1)
    ensures |l1| <= |l0| + sb.size / BPB + 1
  {
    SubsetCount(l1, l0 + Range(sb.bmapstart, DataStart(sb)));
  }

  lemma TruncDone(sb: Super, d: Disk, inum: nat, e: Disk, f: Disk, x: Dino)
    requires Consistent(sb, d) && inum < sb.ninodes
    requires Freed(sb, d, Addrs(sb, d, inum), Rest(sb, d, inum), |Addrs(sb, d, inum)| + NINDIRECT, e)
    requires x.addrs == NoAddrs() && x.size == 0 && f == WriteDino(sb, e, inum, x)
    ensures Consistent(sb, f) && OthersKept(sb, d, inum, f) && ReadDino(sb, f, inum) == x
    ensures NoHoles(f, x.addrs, 0) && NoSpares(f, x.addrs, 0)
    ensures FreeCount(sb, f) == FreeCount(sb, d) + Blocks(d, Addrs(sb, d, inum))
  {
    var a := Addrs(sb, d, inum);
    FreedEnd(sb, d, a, Rest(sb, d, inum), |a| + NINDIRECT, e);
    SettledConsistent(sb, d, inum, e, f, x);
    SettledExact(sb, d, inum, e, f, x);
    SettledCount(sb, d, inum, e, f, x);
  }

  lemma BlockExists(sb: Super, d: Disk, addrs: seq<nat>, rest: set<nat>, size: nat, o: nat)
    requires Tied(sb, d, addrs, rest) && NoHoles(d, addrs, size) && o < size
    ensures o / BSIZE < MAXFILE && 0 != FileBlock(d, addrs, o / BSIZE) < |d|
    ensures Missing(d, addrs, o / BSIZE) == 0
  {
    assert o / BSIZE * BSIZE <= o;
  }

  /** The bytes of one block are a piece of the contents. */
  lemma ReadBlock(sb: Super, d: Disk, addrs: seq<nat>, rest: set<nat>, size: nat, o: nat, m: nat)
    requires Tied(sb, d, addrs, rest) && NoHoles(d, addrs, size) && 0 < m && o + m <= size && o % BSIZE + m <= BSIZE
    requires o / BSIZE < MAXFILE && 0 != FileBlock(d, addrs, o / BSIZE) < |d|
    ensures d[FileBlock(d, addrs, o / BSIZE)][o % BSIZE..o % BSIZE + m] == Content(d, addrs, size)[o..o + m]
  {
    var got := d[FileBlock(d, addrs, o / BSIZE)][o % BSIZE..o % BSIZE + m];
    var want := Content(d, addrs, size)[o..o + m];
    forall k | 0 <= k < m
      ensures got[k] == want[k]
    {
      SameBlock(o, m, o + k);
      ContentAt(d, addrs, size, o + k);
    }
  }

  /** The most blocks writei of n bytes at off adds to the transaction: the data
      blocks, a bitmap block for each block taken, the indirect block, the inode. */
  function Cost(d: Disk, addrs: seq<nat>, off: nat, n: nat): int
    requires |addrs| == NDIRECT + 1 && off + n <= MAXBYTES
  {
    Hi(off, n) - off / BSIZE + Need(d, addrs, off / BSIZE, Hi(off, n)) + 2
  }

  /** Inode x on disk f is inode inum of d after a write of src at off. */
  ghost predicate WroteFile(sb: Super, d: Disk, inum: nat, src: seq<byte>, off: nat, f: Disk, x: Dino)
    requires FsDisk(sb, d) && FsDisk(sb, f)
  {
    && inum < sb.ninodes
    && var was := ReadDino(sb, d, inum);
    && off <= was.size <= MAXBYTES && off + |src| <= MAXBYTES && |x.addrs| == NDIRECT + 1
    && x == Grown(was, off, |src|, x.addrs)
    && Content(f, x.addrs, x.size) == Spliced(Content(d, was.addrs, was.size), off, src)
    && FreeCount(sb, f) + Need(d, was.addrs, off / BSIZE, Hi(off, |src|)) == FreeCount(sb, d)
  }

  lemma WroteNothing(sb: Super, d: Disk, inum: nat, off: nat)
    requires FsDisk(sb, d) && inum < sb.ninodes && off <= ReadDino(sb, d, inum).size <= MAXBYTES
    ensures WroteFile(sb, d, inum, [], off, d, ReadDino(sb, d, inum)) && OthersKept(sb, d, inum, d)
  {
    var x := ReadDino(sb, d, inum);
    var c := Content(d, x.addrs, x.size);
    assert Spliced(c, off, []) == c;
    assert x == Grown(x, off, 0, x.addrs);
  }

  lemma WriteDone(sb: Super, d: Disk, inum: nat, src: seq<byte>, off: nat, e: Disk, eddrs: seq<nat>, f: Disk, x: Dino)
    requires Consistent(sb, d) && inum < sb.ninodes && NoHoles(d, Addrs(sb, d, inum), ReadDino(sb, d, inum).size)
    requires off <= ReadDino(sb, d, inum).size && 0 < |src| && off + |src| <= MAXBYTES
    requires WriteEffect(sb, d, Addrs(sb, d, inum), Rest(sb, d, inum), off / BSIZE, Hi(off, |src|), e, eddrs)
    requires BytesDone(d, Addrs(sb, d, inum), off, src, |src|, e, eddrs)
    requires FreeCount(sb, e) + Need(d, Addrs(sb, d, inum), off / BSIZE, Hi(off, |src|)) == FreeCount(sb, d)
    requires x == Grown(ReadDino(sb, d, inum), off, |src|, eddrs)
    requires if off + |src| > ReadDino(sb, d, inum).size then DinoOk(x) && f == WriteDino(sb, e, inum, x) else f == e
    ensures FsDisk(sb, f) && WroteFile(sb, d, inum, src, off, f, x)
    ensures Consistent(sb, f) && OthersKept(sb, d, inum, f) && ReadDino(sb, f, inum) == x && NoHoles(f, x.addrs, x.size)
    ensures NoSpares(d, Addrs(sb, d, inum), ReadDino(sb, d, inum).size) ==> NoSpares(f, x.addrs, x.size)
  {
    WriteSettles(sb, d, inum, off, |src|, e, eddrs, f);
    SettledConsistent(sb, d, inum, e, f, x);
    SettledExact(sb, d, inum, e, f, x);
    SettledCount(sb, d, inum, e, f, x);
    WriteContent(sb, d, inum, off, src, e, f, x);
  }

  /** The file block writei's loop turns to after tot bytes. */
  function Cur(off: nat, src: seq<byte>, tot: nat): nat
    requires tot <= |src|
  {
    if tot == |src| then Hi(off, |src|) else (off + tot) / BSIZE
  }

  /** What writei's loop has done after tot bytes. */
  ghost predicate Progress(sb: Super, d0: Disk, a0: seq<nat>, rest: set<nat>, off: nat, src: seq<byte>, tot: nat,
                           d: Disk, addrs: seq<nat>) {
    var lo, hi := off / BSIZE, Hi(off, |src|);
    && tot <= |src| && off + |src| <= MAXBYTES
    && lo <= Cur(off, src, tot) <= hi <= MAXFILE
    && (tot < |src| ==> Cur(off, src, tot) < hi == Hi(off + tot, |src| - tot))
    && WriteEffect(sb, d0, a0, rest, lo, Cur(off, src, tot), d, addrs)
    && BytesDone(d0, a0, off, src, tot, d, addrs)
    && FreeCount(sb, d) + Need(d0, a0, lo, hi) == FreeCount(sb, d0) + Need(d, addrs, Cur(off, src, tot), hi)
  }

  /** min(n - tot, BSIZE - off % BSIZE). */
  function Chunk(o: nat, n: nat): (m: nat)
    requires n > 0
    ensures 0 < m <= n && o % BSIZE + m <= BSIZE
  {
    Min(n, BSIZE - o % BSIZE)
  }

  lemma ProgressStart(sb: Super, d: Disk, addrs: seq<nat>, rest: set<nat>, off: nat, src: seq<byte>)
    requires Tied(sb, d, addrs, rest) && off + |src| <= MAXBYTES && |src| > 0
    ensures Progress(sb, d, addrs, rest, off, src, 0, d, addrs)
  {
    NextChunk(off, |src|, Chunk(off, |src|));
  }

  lemma ProgressStuck(sb: Super, d0: Disk, a0: seq<nat>, rest: set<nat>, off: nat, src: seq<byte>, tot: nat,
                      d: Disk, addrs: seq<nat>)
    requires Progress(sb, d0, a0, rest, off, src, tot, d, addrs) && tot < |src|
    requires FreeCount(sb, d) < Missing(d, addrs, (off + tot) / BSIZE)
    ensures FreeCount(sb, d0) < Need(d0, a0, off / BSIZE, Hi(off, |src|))
  {
    NeedFirst(d, addrs, (off + tot) / BSIZE, Hi(off, |src|));
  }

  lemma ProgressStep(sb: Super, d0: Disk, a0: seq<nat>, rest: set<nat>, off: nat, src: seq<byte>, tot: nat, m: nat, next: nat,
                     d: Disk, addrs: seq<nat>, e: Disk, eddrs: seq<nat>, a: nat, f: Disk)
    requires Progress(sb, d0, a0, rest, off, src, tot, d, addrs) && tot < |src|
    requires m == Chunk(off + tot, |src| - tot) && next == tot + m
    requires BmapEffect(sb, d, addrs, rest, (off + tot) / BSIZE, e, eddrs, a)
    requires f == e[a := Splice(e[a], (off + tot) % BSIZE, src[tot..tot + m])]
    requires FreeCount(sb, e) + Missing(d, addrs, (off + tot) / BSIZE) == FreeCount(sb, d)
    ensures Progress(sb, d0, a0, rest, off, src, next, f, eddrs)
    ensures FreeCount(sb, f) + Missing(d, addrs, (off + tot) / BSIZE) == FreeCount(sb, d)
    ensures Cur(off, src, next) == Cur(off, src, tot) + 1
  {
    CurStep(off, src, tot, m);
    BytesStep(sb, d0, a0, rest, off, src, tot, m, d, addrs, e, eddrs, a, f);
    ChunkStep(sb, d0, a0, rest, off / BSIZE, Cur(off, src, tot), Hi(off, |src|), d, addrs, e, eddrs, a, f);
    ProgressAt(sb, d0, a0, rest, off, src, tot, next, d, addrs, f, eddrs);
  }

  lemma ProgressAt(sb: Super, d0: Disk, a0: seq<nat>, rest: set<nat>, off: nat, src: seq<byte>, tot: nat, next: nat,
                   d: Disk, addrs: seq<nat>, f: Disk, eddrs: seq<nat>)
    requires Progress(sb, d0, a0, rest, off, src, tot, d, addrs) && next <= |src|
    requires var lo, cur, hi := off / BSIZE, Cur(off, src, tot), Hi(off, |src|);
             && Cur(off, src, next) == cur + 1 <= hi
             && (next < |src| ==> cur + 1 < hi == Hi(off + next, |src| - next))
             && WriteEffect(sb, d0, a0, rest, lo, cur + 1, f, eddrs) && BytesDone(d0, a0, off, src, next, f, eddrs)
             && FreeCount(sb, f) - Need(f, eddrs, cur + 1, hi) == FreeCount(sb, d) - Need(d, addrs, cur, hi)
    ensures Progress(sb, d0, a0, rest, off, src, next, f, eddrs)
  {
  }

  lemma CurStep(off: nat, src: seq<byte>, tot: nat, m: nat)
    requires tot < |src| && m == Chunk(off + tot, |src| - tot)
    requires Cur(off, src, tot) < Hi(off, |src|) == Hi(off + tot, |src| - tot)
    ensures Cur(off, src, tot + m) == Cur(off, src, tot) + 1 <= Hi(off, |src|)
    ensures tot + m < |src| ==> Cur(off, src, tot + m) < Hi(off, |src|) == Hi(off + tot + m, |src| - tot - m)
  {
    NextChunk(off + tot, |src| - tot, m);
  }

  lemma NeedFirst(d: Disk, addrs: seq<nat>, lo: nat, hi: nat)
    requires |addrs| == NDIRECT + 1 && lo < hi <= MAXFILE
    ensures Missing(d, addrs, lo) <= Need(d, addrs, lo, hi)
  {
  }

  /** One turn of writei's loop: what it adds to the effect of the turns before. */
  lemma ChunkStep(sb: Super, d0: Disk, a0: seq<nat>, rest: set<nat>, lo: nat, cur: nat, hi: nat,
                  d: Disk, addrs: seq<nat>, e: Disk, eddrs: seq<nat>, a: nat, f: Disk)
    requires WriteEffect(sb, d0, a0, rest, lo, cur, d, addrs) && lo <= cur < hi <= MAXFILE
    requires BmapEffect(sb, d, addrs, rest, cur, e, eddrs, a)
    requires |f| == |e| && f == e[a := f[a]]
    ensures WriteEffect(sb, d0, a0, rest, lo, cur + 1, f, eddrs)
    ensures Need(d, addrs, cur, hi) == Missing(d, addrs, cur) + Need(f, eddrs, cur + 1, hi)
    ensures FreeCount(sb, f) == FreeCount(sb, e)
  {
    ChunkEffect(sb, d, addrs, rest, cur, e, eddrs, a, f[a]);
    EffectTrans(sb, d0, a0, rest, lo, cur, d, addrs, f, eddrs);
    NeedStep(sb, d, addrs, rest, cur, hi, f, eddrs);
    DataCount(sb, e, eddrs, rest, cur, f[a]);
  }

  lemma DataCount(sb: Super, e: Disk, eddrs: seq<nat>, rest: set<nat>, bn: nat, v: Block)
    requires Tied(sb, e, eddrs, rest) && bn < MAXFILE && FileBlock(e, eddrs, bn) != 0
    ensures FileBlock(e, eddrs, bn) < |e| && FreeCount(sb, e[FileBlock(e, eddrs, bn) := v]) == FreeCount(sb, e)
  {
    var a := Slot(e, eddrs, FileSlot(bn));
    UsedFrameAll(sb, e, a, v);
    FreeFromSame(sb, e, e[a := v], 0);
  }

  /** Entry i of the inode names block b, taken from the free blocks if it was empty. */
  ghost predicate Filled(sb: Super, d: Disk, addrs: seq<nat>, rest: set<nat>, i: nat, e: Disk, eddrs: seq<nat>, b: nat) {
    && Tied(sb, d, addrs, rest) && Tied(sb, e, eddrs, rest) && i <= NDIRECT && eddrs[i] == b != 0
    && (addrs[i] != 0 ==> e == d && eddrs == addrs)
    && (addrs[i] == 0 ==>
          && b < sb.size && !Used(sb, d, b) && e == Taken(sb, d, b) && eddrs == addrs[i := b]
          && FreeCount(sb, e) + 1 == FreeCount(sb, d))
  }

  lemma DirectEffect(sb: Super, d: Disk, addrs: seq<nat>, rest: set<nat>, bn: nat, e: Disk, eddrs: seq<nat>, b: nat)
    requires Filled(sb, d, addrs, rest, bn, e, eddrs, b) && bn < NDIRECT
    ensures BmapEffect(sb, d, addrs, rest, bn, e, eddrs, b)
    ensures FreeCount(sb, e) + Missing(d, addrs, bn) == FreeCount(sb, d)
  {
    if addrs[bn] != 0 {
      FoundEffect(sb, d, addrs, rest, bn);
    } else {
      EntryEffect(sb, d, addrs, bn, b, rest);
    }
  }

  lemma MissingIndirect(d: Disk, addrs: seq<nat>, bn: nat)
    requires |addrs| == NDIRECT + 1 && NDIRECT <= bn < MAXFILE && addrs[NDIRECT] == 0
    ensures Missing(d, addrs, bn) == 2
  {
  }

  lemma ThroughEntry(sb: Super, d: Disk, addrs: seq<nat>, b: nat, rest: set<nat>, bn: nat, e: Disk, eddrs: seq<nat>)
    requires Filled(sb, d, addrs, rest, NDIRECT, e, eddrs, b) && NDIRECT <= bn < MAXFILE
    ensures FileBlock(e, eddrs, bn) == FileBlock(d, addrs, bn)
    ensures Missing(d, addrs, bn) == Missing(e, eddrs, bn) + if addrs[NDIRECT] == 0 then 1 else 0
  {
    if addrs[NDIRECT] == 0 {
      EntryEffect(sb, d, addrs, NDIRECT, b, rest);
    }
  }

  lemma EntryCount(sb: Super, d: Disk, addrs: seq<nat>, i: nat, b: nat, rest: set<nat>)
    requires Tied(sb, d, addrs, rest) && i <= NDIRECT && addrs[i] == 0 && b < sb.size && !Used(sb, d, b)
    ensures FreeCount(sb, Taken(sb, d, b)) == FreeCount(sb, d) - 1
  {
    EntryAdds(sb, d, addrs, i, b, rest);
    AddedCount(sb, d, addrs, Taken(sb, d, b), addrs[i := b], i, b);
  }
}
