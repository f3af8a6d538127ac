/** The whole file system: all on-disk inodes, the blocks each owns, and the bitmap. */
module Volume {
  import opened Words
  import opened Bitmap
  import opened Inode
  import opened FileContent
  import opened Dinode

  function Addrs(sb: Super, d: Disk, j: nat): (a: seq<nat>)
    requires FsDisk(sb, d) && j < sb.ninodes
    ensures |a| == NDIRECT + 1
  {
    ReadDino(sb, d, j).addrs
  }

  /** Inode j owns block b. */
  ghost predicate Has(sb: Super, d: Disk, j: nat, b: nat)
    requires FsDisk(sb, d)
  {
    j < sb.ninodes && Owns(d, Addrs(sb, d, j), b)
  }

  /** No block belongs to two inodes or to one inode twice, and the bitmap marks
      exactly the metadata blocks and the blocks of inodes. */
  ghost predicate Consistent(sb: Super, d: Disk) {
    && FsDisk(sb, d)
    && (forall j | 0 <= j < sb.ninodes :: SlotsOk(sb, d, Addrs(sb, d, j)))
    && (forall i: nat, j: nat, b: nat {:trigger Has(sb, d, i, b), Has(sb, d, j, b)} ::
          Has(sb, d, i, b) && Has(sb, d, j, b) ==> i == j)
    && (forall b | 0 <= b < sb.size ::
          Used(sb, d, b) <==> b < DataStart(sb) || exists j: nat :: Has(sb, d, j, b))
  }

  /** The blocks that are metadata or belong to an inode other than inum. */
  ghost function Rest(sb: Super, d: Disk, inum: nat): set<nat>
    requires FsDisk(sb, d)
  {
    set b | 0 <= b < sb.size && Foreign(sb, d, inum, b)
  }

  ghost predicate Foreign(sb: Super, d: Disk, inum: nat, b: nat)
    requires FsDisk(sb, d)
  {
    b < DataStart(sb) || exists j: nat :: j != inum && Has(sb, d, j, b)
  }

  lemma OwnedInRest(sb: Super, d: Disk, inum: nat, j: nat, b: nat)
    requires Consistent(sb, d) && j != inum && Has(sb, d, j, b)
    ensures DataStart(sb) <= b < sb.size && Foreign(sb, d, inum, b) && b in Rest(sb, d, inum)
  {
    var k :| 0 <= k < NSLOT && Slot(d, Addrs(sb, d, j), k) == b;
  }

  lemma ConsistentTied(sb: Super, d: Disk, inum: nat)
    requires Consistent(sb, d) && inum < sb.ninodes
    ensures Tied(sb, d, Addrs(sb, d, inum), Rest(sb, d, inum))
  {
    var a, rest := Addrs(sb, d, inum), Rest(sb, d, inum);
    forall b | 0 <= b < sb.size
      ensures Used(sb, d, b) <==> b in rest || Owns(d, a, b)
    {
      assert Owns(d, a, b) == Has(sb, d, inum, b);
      if exists j: nat :: Has(sb, d, j, b) {
        var j: nat :| Has(sb, d, j, b);
        assert j == inum || b in rest;
      }
    }
    forall i | 0 <= i < NSLOT && Slot(d, a, i) != 0
      ensures Slot(d, a, i) !in rest
    {
      assert Has(sb, d, inum, Slot(d, a, i));
    }
  }

  /** f differs from d, outside the bitmap, only in inode inum and its own blocks. */
  ghost predicate OthersKept(sb: Super, d: Disk, inum: nat, f: Disk) {
    && FsDisk(sb, d) && FsDisk(sb, f)
    && (forall x {:trigger Foreign(sb, d, inum, x)} | DataStart(sb) <= x < sb.size && Foreign(sb, d, inum, x) ::
          f[x] == d[x])
    && (forall j {:trigger ReadDino(sb, f, j)} | 0 <= j < sb.ninodes && j != inum :: ReadDino(sb, f, j) == ReadDino(sb, d, j))
  }

  lemma OtherSlots(sb: Super, d: Disk, inum: nat, f: Disk, j: nat)
    requires Consistent(sb, d) && OthersKept(sb, d, inum, f) && j < sb.ninodes && j != inum
    ensures Addrs(sb, f, j) == Addrs(sb, d, j)
    ensures forall i | 0 <= i < NSLOT :: Slot(f, Addrs(sb, d, j), i) == Slot(d, Addrs(sb, d, j), i)
  {
    var a := Addrs(sb, d, j);
    assert Slot(d, a, NDIRECT) == a[NDIRECT];
    if a[NDIRECT] != 0 {
      assert Has(sb, d, j, a[NDIRECT]);
      OwnedInRest(sb, d, inum, j, a[NDIRECT]);
    }
    SlotFrame(d, f, a);
  }

  lemma OtherHas(sb: Super, d: Disk, inum: nat, f: Disk, j: nat, b: nat)
    requires Consistent(sb, d) && OthersKept(sb, d, inum, f) && j != inum
    ensures Has(sb, f, j, b) <==> Has(sb, d, j, b)
  {
    if j < sb.ninodes {
      OtherSlots(sb, d, inum, f, j);
      OwnsSame(d, f, Addrs(sb, d, j), b);
    }
  }

  /** Changing one inode keeps every other file's bytes. */
  lemma OtherBytes(sb: Super, d: Disk, inum: nat, f: Disk, j: nat, p: nat)
    requires Consistent(sb, d) && OthersKept(sb, d, inum, f) && j < sb.ninodes && j != inum && p < MAXBYTES
    ensures ByteAt(f, Addrs(sb, f, j), p) == ByteAt(d, Addrs(sb, d, j), p)
  {
    OtherSlots(sb, d, inum, f, j);
    var b := FileBlock(d, Addrs(sb, d, j), p / BSIZE);
    if b != 0 {
      assert Has(sb, d, j, b);
      OwnedInRest(sb, d, inum, j, b);
    }
  }

  /** An operation that keeps one inode tied to its share of the bitmap, with the
      others' blocks and inodes as they were, keeps the whole file system consistent. */
  lemma TiedConsistent(sb: Super, d: Disk, inum: nat, f: Disk)
    requires Consistent(sb, d) && OthersKept(sb, d, inum, f) && inum < sb.ninodes
    requires Tied(sb, f, Addrs(sb, f, inum), Rest(sb, d, inum))
    ensures Consistent(sb, f)
  {
    forall i: nat, j: nat, b: nat | Has(sb, f, i, b) && Has(sb, f, j, b)
      ensures i == j
    {
      TwoOwners(sb, d, inum, f, i, j, b);
    }
    forall b | 0 <= b < sb.size
      ensures Used(sb, f, b) <==> b < DataStart(sb) || exists j: nat :: Has(sb, f, j, b)
    {
      UsedOwned(sb, d, inum, f, b);
    }
    forall j | 0 <= j < sb.ninodes
      ensures SlotsOk(sb, f, Addrs(sb, f, j))
    {
      if j != inum {
        OtherSlotsOk(sb, d, inum, f, j);
      }
    }
  }

  lemma OtherSlotsOk(sb: Super, d: Disk, inum: nat, f: Disk, j: nat)
    requires Consistent(sb, d) && OthersKept(sb, d, inum, f) && j < sb.ninodes && j != inum
    ensures SlotsOk(sb, f, Addrs(sb, f, j))
  {
    OtherSlots(sb, d, inum, f, j);
    var a := Addrs(sb, d, j);
    forall i, k | 0 <= i < NSLOT && 0 <= k < NSLOT
      ensures Apart(f, a, i, k)
    {
      assert Apart(d, a, i, k);
    }
  }

  lemma TwoOwners(sb: Super, d: Disk, inum: nat, f: Disk, i: nat, j: nat, b: nat)
    requires Consistent(sb, d) && OthersKept(sb, d, inum, f) && inum < sb.ninodes
    requires Tied(sb, f, Addrs(sb, f, inum), Rest(sb, d, inum))
    requires Has(sb, f, i, b) && Has(sb, f, j, b)
    ensures i == j
  {
    if i != inum {
      OtherHas(sb, d, inum, f, i, b);
      OwnedInRest(sb, d, inum, i, b);
    }
    if j != inum {
      OtherHas(sb, d, inum, f, j, b);
      OwnedInRest(sb, d, inum, j, b);
    }
  }

  lemma UsedOwned(sb: Super, d: Disk, inum: nat, f: Disk, b: nat)
    requires Consistent(sb, d) && OthersKept(sb, d, inum, f) && inum < sb.ninodes && b < sb.size
    requires Tied(sb, f, Addrs(sb, f, inum), Rest(sb, d, inum))
    ensures Used(sb, f, b) <==> b < DataStart(sb) || exists j: nat :: Has(sb, f, j, b)
  {
    if b in Rest(sb, d, inum) && b >= DataStart(sb) {
      var j: nat :| j != inum && Has(sb, d, j, b);
      OtherHas(sb, d, inum, f, j, b);
    }
    if Owns(f, Addrs(sb, f, inum), b) {
      assert Has(sb, f, inum, b);
    }
    if exists j: nat :: Has(sb, f, j, b) {
      var j: nat :| Has(sb, f, j, b);
      if j != inum {
        OtherHas(sb, d, inum, f, j, b);
        OwnedInRest(sb, d, inum, j, b);
      }
    }
  }

  // ---- iupdate ----

  /** A write to a metadata block outside the bitmap leaves blocks and bytes alone. */
  lemma MetaWriteTied(sb: Super, e: Disk, addrs: seq<nat>, rest: set<nat>, x: nat, v: Block)
    requires Tied(sb, e, addrs, rest) && x < sb.bmapstart
    ensures Tied(sb, e[x := v], addrs, rest)
    ensures forall i | 0 <= i < NSLOT :: Slot(e[x := v], addrs, i) == Slot(e, addrs, i)
  {
    var f := e[x := v];
    assert Slot(e, addrs, NDIRECT) == addrs[NDIRECT];
    SlotFrame(e, f, addrs);
    forall b | 0 <= b < sb.size
      ensures Used(sb, f, b) == Used(sb, e, b)
    {
      UsedFrame(sb, e, f, b);
    }
    FrameTied(sb, e, f, addrs, rest);
  }

  lemma MetaWriteBytes(sb: Super, e: Disk, addrs: seq<nat>, rest: set<nat>, x: nat, v: Block, p: nat)
    requires Tied(sb, e, addrs, rest) && x < sb.bmapstart && p < MAXBYTES
    ensures ByteAt(e[x := v], addrs, p) == ByteAt(e, addrs, p)
  {
    MetaWriteTied(sb, e, addrs, rest, x, v);
  }
}
