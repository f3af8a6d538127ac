/** From one inode's blocks to the whole file system: what is left when an operation
    on inode inum has changed its blocks and then, perhaps, written the inode. */
module Settle {
  import opened Basics
  import opened Words
  import opened Bitmap
  import opened Inode
  import opened FileContent
  import opened Dinode
  import opened Volume

  /** e is d changed only in the bitmap and in blocks of inode inum; f is e with, at
      most, inode inum rewritten as x. */
  ghost predicate Settled(sb: Super, d: Disk, inum: nat, e: Disk, f: Disk, x: Dino) {
    && Consistent(sb, d) && inum < sb.ninodes && FsDisk(sb, e) && FsDisk(sb, f) && DinoOk(x)
    && RestKept(sb, d, e, Rest(sb, d, inum))
    && Tied(sb, e, x.addrs, Rest(sb, d, inum))
    && (f == WriteDino(sb, e, inum, x) || (f == e && x == ReadDino(sb, d, inum)))
  }

  /** Inodes lie outside the bitmap, in blocks nobody's file owns. */
  lemma DinoKept(sb: Super, d: Disk, inum: nat, e: Disk, j: nat)
    requires FsDisk(sb, d) && FsDisk(sb, e) && RestKept(sb, d, e, Rest(sb, d, inum)) && j < sb.ninodes
    ensures ReadDino(sb, e, j) == ReadDino(sb, d, j)
  {
    var b := InodeBlock(sb, j);
    assert b in Rest(sb, d, inum) && !IsBitmapBlock(sb, b);
    assert e[b] == d[b];
  }

  lemma SettledDinos(sb: Super, d: Disk, inum: nat, e: Disk, f: Disk, x: Dino, j: nat)
    requires Settled(sb, d, inum, e, f, x) && j < sb.ninodes
    ensures ReadDino(sb, f, j) == if j == inum then x else ReadDino(sb, d, j)
  {
    DinoKept(sb, d, inum, e, j);
    ReadWriteDino(sb, e, inum, x, j);
  }

  lemma SettledOthers(sb: Super, d: Disk, inum: nat, e: Disk, f: Disk, x: Dino)
    requires Settled(sb, d, inum, e, f, x)
    ensures OthersKept(sb, d, inum, f)
  {
    forall x | DataStart(sb) <= x < sb.size && Foreign(sb, d, inum, x)
      ensures f[x] == d[x]
    {
      assert x in Rest(sb, d, inum);
    }
    forall j | 0 <= j < sb.ninodes && j != inum
      ensures ReadDino(sb, f, j) == ReadDino(sb, d, j)
    {
      SettledDinos(sb, d, inum, e, f, x, j);
    }
  }

  lemma SettledTied(sb: Super, d: Disk, inum: nat, e: Disk, f: Disk, x: Dino)
    requires Settled(sb, d, inum, e, f, x)
    ensures Tied(sb, f, x.addrs, Rest(sb, d, inum)) && f == e[InodeBlock(sb, inum) := f[InodeBlock(sb, inum)]]
    ensures forall i | 0 <= i < NSLOT :: Slot(f, x.addrs, i) == Slot(e, x.addrs, i)
  {
    var b := InodeBlock(sb, inum);
    assert f == e[b := f[b]];
    MetaWriteTied(sb, e, x.addrs, Rest(sb, d, inum), b, f[b]);
  }

  /** The operation has kept the file system consistent, and every other file. */
  lemma SettledConsistent(sb: Super, d: Disk, inum: nat, e: Disk, f: Disk, x: Dino)
    requires Settled(sb, d, inum, e, f, x)
    ensures Consistent(sb, f) && OthersKept(sb, d, inum, f) && ReadDino(sb, f, inum) == x
  {
    SettledOthers(sb, d, inum, e, f, x);
    SettledDinos(sb, d, inum, e, f, x, inum);
    SettledTied(sb, d, inum, e, f, x);
    TiedConsistent(sb, d, inum, f);
  }

  lemma SettledExact(sb: Super, d: Disk, inum: nat, e: Disk, f: Disk, x: Dino)
    requires Settled(sb, d, inum, e, f, x)
    ensures NoHoles(e, x.addrs, x.size) ==> NoHoles(f, x.addrs, x.size)
    ensures NoSpares(e, x.addrs, x.size) ==> NoSpares(f, x.addrs, x.size)
  {
    SettledTied(sb, d, inum, e, f, x);
    forall bn | 0 <= bn < MAXFILE
      ensures FileBlock(f, x.addrs, bn) == FileBlock(e, x.addrs, bn)
    {
    }
  }

  lemma SettledCount(sb: Super, d: Disk, inum: nat, e: Disk, f: Disk, x: Dino)
    requires Settled(sb, d, inum, e, f, x)
    ensures FreeCount(sb, f) == FreeCount(sb, e)
  {
    SettledTied(sb, d, inum, e, f, x);
    forall c | 0 <= c < sb.size
      ensures Used(sb, f, c) == Used(sb, e, c)
    {
      UsedFrame(sb, e, f, c);
    }
    FreeFromSame(sb, e, f, 0);
  }

  lemma SettledHolds(sb: Super, d: Disk, inum: nat, e: Disk, f: Disk, x: Dino, c: seq<byte>)
    requires Settled(sb, d, inum, e, f, x) && Holds(e, x.addrs, c)
    ensures Holds(f, x.addrs, c)
  {
    var b := InodeBlock(sb, inum);
    SettledTied(sb, d, inum, e, f, x);
    forall p | 0 <= p < |c|
      ensures ByteAt(f, x.addrs, p) == Some(c[p])
    {
      MetaWriteBytes(sb, e, x.addrs, Rest(sb, d, inum), b, f[b], p);
      assert ByteAt(e, x.addrs, p) == Some(c[p]);
    }
  }

  /** The inode writei leaves behind. */
  function Grown(x: Dino, off: nat, n: nat, addrs: seq<nat>): Dino {
    x.(size := Max(x.size, off + n), addrs := addrs)
  }

  /** writei as a whole: the loop's effect, then iupdate if the file grew. */
  lemma WriteSettles(sb: Super, d: Disk, inum: nat, off: nat, n: nat, e: Disk, eddrs: seq<nat>, f: Disk)
    requires Consistent(sb, d) && inum < sb.ninodes && NoHoles(d, Addrs(sb, d, inum), ReadDino(sb, d, inum).size)
    requires off <= ReadDino(sb, d, inum).size && 0 < n && off + n <= MAXBYTES
    requires WriteEffect(sb, d, Addrs(sb, d, inum), Rest(sb, d, inum), off / BSIZE, Hi(off, n), e, eddrs)
    requires var x := Grown(ReadDino(sb, d, inum), off, n, eddrs);
             if off + n > ReadDino(sb, d, inum).size then DinoOk(x) && f == WriteDino(sb, e, inum, x) else f == e
    ensures Settled(sb, d, inum, e, f, Grown(ReadDino(sb, d, inum), off, n, eddrs))
    ensures NoHoles(e, eddrs, Max(ReadDino(sb, d, inum).size, off + n))
    ensures NoSpares(d, Addrs(sb, d, inum), ReadDino(sb, d, inum).size) ==>
              NoSpares(e, eddrs, Max(ReadDino(sb, d, inum).size, off + n))
  {
    var x := ReadDino(sb, d, inum);
    WriteExact(sb, d, x.addrs, Rest(sb, d, inum), x.size, off, n, e, eddrs);
    AddrsFit(sb, e, eddrs);
    if off + n <= x.size {
      NoGrowthSameAddrs(sb, d, x.addrs, Rest(sb, d, inum), x.size, off, n, e, eddrs);
    }
  }

  lemma AddrsFit(sb: Super, e: Disk, eddrs: seq<nat>)
    requires FsDisk(sb, e) && SlotsOk(sb, e, eddrs)
    ensures forall i | 0 <= i < |eddrs| :: eddrs[i] < WORD_LIMIT
  {
    forall i | 0 <= i < |eddrs|
      ensures eddrs[i] < WORD_LIMIT
    {
      assert Slot(e, eddrs, i) == eddrs[i];
    }
  }

  /** Contents after writei. */
  lemma WriteContent(sb: Super, d: Disk, inum: nat, off: nat, src: seq<byte>, e: Disk, f: Disk, x: Dino)
    requires Settled(sb, d, inum, e, f, x) && NoHoles(d, Addrs(sb, d, inum), ReadDino(sb, d, inum).size)
    requires off <= ReadDino(sb, d, inum).size && off + |src| <= MAXBYTES
    requires x.size == Max(ReadDino(sb, d, inum).size, off + |src|)
    requires BytesDone(d, Addrs(sb, d, inum), off, src, |src|, e, x.addrs)
    ensures Content(f, x.addrs, x.size)
         == Spliced(Content(d, Addrs(sb, d, inum), ReadDino(sb, d, inum).size), off, src)
  {
    var was := ReadDino(sb, d, inum);
    var c := Content(d, was.addrs, was.size);
    ConsistentTied(sb, d, inum);
    NoHolesHolds(sb, d, was.addrs, Rest(sb, d, inum), was.size);
    SplicedHolds(d, was.addrs, c, off, src, e, x.addrs);
    SettledHolds(sb, d, inum, e, f, x, Spliced(c, off, src));
    HoldsContent(f, x.addrs, Spliced(c, off, src));
  }
}
