/** What itrunc has freed after each of its 141 steps. */
module Trunc {
  import opened Bitmap
  import opened Inode
  import opened FileContent

  /** The slots in the order itrunc visits them: direct entries, the words of the
      indirect block, the indirect block itself. */
  function TruncSlot(t: nat): nat { if t < MAXFILE then FileSlot(t) else NDIRECT }

  ghost predicate OwnsFrom(d: Disk, addrs: seq<nat>, t: nat, b: nat)
    requires |addrs| == NDIRECT + 1
  {
    b != 0 && exists u :: t <= u < NSLOT && Slot(d, addrs, TruncSlot(u)) == b
  }

  /** e is d with the blocks of the first t slots freed. */
  ghost predicate Freed(sb: Super, d: Disk, addrs: seq<nat>, rest: set<nat>, t: nat, e: Disk) {
    && Tied(sb, d, addrs, rest) && FsDisk(sb, e) && t <= NSLOT
    && (forall x | 0 <= x < |d| && !IsBitmapBlock(sb, x) :: e[x] == d[x])
    && (forall b {:trigger Used(sb, e, b)} | 0 <= b < sb.size :: Used(sb, e, b) <==> b in rest || OwnsFrom(d, addrs, t, b))
    && FreeCount(sb, e) == FreeCount(sb, d) + Owned(d, addrs, t)
  }

  /** How many blocks the first t slots name. */
  function Owned(d: Disk, addrs: seq<nat>, t: nat): nat
    requires |addrs| == NDIRECT + 1 && t <= NSLOT
  {
    if t == 0 then 0 else Owned(d, addrs, t - 1) + if Slot(d, addrs, TruncSlot(t - 1)) == 0 then 0 else 1
  }

  lemma FreedStart(sb: Super, d: Disk, addrs: seq<nat>, rest: set<nat>)
    requires Tied(sb, d, addrs, rest)
    ensures Freed(sb, d, addrs, rest, 0, d)
  {
    forall b | 0 <= b < sb.size
      ensures OwnsFrom(d, addrs, 0, b) <==> Owns(d, addrs, b)
    {
      if Owns(d, addrs, b) {
        var i :| 0 <= i < NSLOT && Slot(d, addrs, i) == b;
        var u := if i < NDIRECT then i else if i == NDIRECT then MAXFILE else i - 1;
        assert TruncSlot(u) == i;
      }
      if OwnsFrom(d, addrs, 0, b) {
        var u :| 0 <= u < NSLOT && Slot(d, addrs, TruncSlot(u)) == b;
        assert 0 <= TruncSlot(u) < NSLOT;
      }
    }
  }

  /** Slot t is empty: nothing to free. */
  lemma FreedSkip(sb: Super, d: Disk, addrs: seq<nat>, rest: set<nat>, t: nat, e: Disk)
    requires Freed(sb, d, addrs, rest, t, e) && t < NSLOT && Slot(d, addrs, TruncSlot(t)) == 0
    ensures Freed(sb, d, addrs, rest, t + 1, e)
  {
    forall b | 0 <= b < sb.size
      ensures OwnsFrom(d, addrs, t, b) <==> OwnsFrom(d, addrs, t + 1, b)
    {
      OwnsNext(d, addrs, t, b);
    }
  }

  lemma OwnsNext(d: Disk, addrs: seq<nat>, t: nat, b: nat)
    requires |addrs| == NDIRECT + 1 && t < NSLOT
    ensures OwnsFrom(d, addrs, t, b) <==> OwnsFrom(d, addrs, t + 1, b) || (b != 0 && Slot(d, addrs, TruncSlot(t)) == b)
  {
    if OwnsFrom(d, addrs, t, b) {
      var u :| t <= u < NSLOT && Slot(d, addrs, TruncSlot(u)) == b;
      assert u == t || t + 1 <= u;
    }
    if OwnsFrom(d, addrs, t + 1, b) {
      var u :| t + 1 <= u < NSLOT && Slot(d, addrs, TruncSlot(u)) == b;
      assert t <= u < NSLOT;
    }
  }

  /** The block in slot t is still marked, and no later slot names it. */
  lemma SlotMarked(sb: Super, d: Disk, addrs: seq<nat>, rest: set<nat>, t: nat, e: Disk, a: nat)
    requires Freed(sb, d, addrs, rest, t, e) && t < NSLOT && a == Slot(d, addrs, TruncSlot(t)) != 0
    ensures DataStart(sb) <= a < sb.size && Used(sb, e, a) && a !in rest && !OwnsFrom(d, addrs, t + 1, a)
  {
    OwnsNext(d, addrs, t, a);
    forall u | t + 1 <= u < NSLOT
      ensures Slot(d, addrs, TruncSlot(u)) != a
    {
      assert Apart(d, addrs, TruncSlot(t), TruncSlot(u));
    }
  }

  /** f is e with block a freed. */
  ghost predicate FreedOne(sb: Super, e: Disk, a: nat, f: Disk) {
    && FsDisk(sb, e) && FsDisk(sb, f) && a < sb.size && !Used(sb, f, a)
    && (forall b | 0 <= b < sb.size :: Used(sb, e, b) == (b == a || Used(sb, f, b)))
    && (forall x | 0 <= x < |e| && !IsBitmapBlock(sb, x) :: f[x] == e[x])
    && FreeCount(sb, f) == FreeCount(sb, e) + 1
  }

  lemma PutUsedAll(sb: Super, e: Disk, a: nat)
    requires FsDisk(sb, e) && a < sb.size && Used(sb, e, a)
    ensures FreedOne(sb, e, a, PutUsed(sb, e, a, false))
  {
    var f := PutUsed(sb, e, a, false);
    forall b | 0 <= b < sb.size
      ensures Used(sb, e, b) == (b == a || Used(sb, f, b))
    {
      UsedPut(sb, e, a, false, b);
    }
    UsedPut(sb, e, a, false, a);
    FreeFromTaken(sb, f, e, a, 0);
    assert IsBitmapBlock(sb, BitmapBlock(sb, a));
  }

  lemma FreedStep(sb: Super, d: Disk, addrs: seq<nat>, rest: set<nat>, t: nat, e: Disk, a: nat, f: Disk)
    requires Freed(sb, d, addrs, rest, t, e) && t < NSLOT && a == Slot(d, addrs, TruncSlot(t)) != 0
    requires FreedOne(sb, e, a, f)
    ensures Freed(sb, d, addrs, rest, t + 1, f)
  {
    SlotMarked(sb, d, addrs, rest, t, e, a);
    forall b {:trigger Used(sb, f, b)} | 0 <= b < sb.size
      ensures Used(sb, f, b) <==> b in rest || OwnsFrom(d, addrs, t + 1, b)
    {
      StillUsed(sb, d, addrs, rest, t, e, a, f, b);
    }
    assert Owned(d, addrs, t + 1) == Owned(d, addrs, t) + 1;
  }

  lemma StillUsed(sb: Super, d: Disk, addrs: seq<nat>, rest: set<nat>, t: nat, e: Disk, a: nat, f: Disk, b: nat)
    requires Freed(sb, d, addrs, rest, t, e) && t < NSLOT && a == Slot(d, addrs, TruncSlot(t)) != 0 && b < sb.size
    requires FsDisk(sb, f) && a < sb.size && !Used(sb, f, a) && Used(sb, e, b) == (b == a || Used(sb, f, b))
    requires a !in rest && !OwnsFrom(d, addrs, t + 1, a)
    ensures Used(sb, f, b) <==> b in rest || OwnsFrom(d, addrs, t + 1, b)
  {
    OwnsNext(d, addrs, t, b);
  }

  /** The number of blocks of an inode. */
  function Blocks(d: Disk, addrs: seq<nat>): nat
    requires |addrs| == NDIRECT + 1
  {
    Owned(d, addrs, |addrs| + NINDIRECT)
  }

  /** No indirect block: nothing left to free after the direct entries. */
  lemma {:induction false} FreedRest(sb: Super, d: Disk, addrs: seq<nat>, rest: set<nat>, t: nat, end: nat, e: Disk)
    requires Freed(sb, d, addrs, rest, t, e) && NDIRECT <= t <= end == |addrs| + NINDIRECT && addrs[NDIRECT] == 0
    ensures Freed(sb, d, addrs, rest, end, e)
    decreases end - t
  {
    if t < end {
      FreedSkip(sb, d, addrs, rest, t, e);
      FreedRest(sb, d, addrs, rest, t + 1, end, e);
    }
  }

  function NoAddrs(): (a: seq<nat>)
    ensures |a| == NDIRECT + 1 && forall i | 0 <= i <= NDIRECT :: a[i] == 0
  {
    seq(NDIRECT + 1, i => 0)
  }

  /** When all is freed the bitmap marks exactly the rest. */
  lemma FreedEnd(sb: Super, d: Disk, addrs: seq<nat>, rest: set<nat>, t: nat, e: Disk)
    requires Freed(sb, d, addrs, rest, t, e) && t == |addrs| + NINDIRECT
    ensures FreeCount(sb, e) == FreeCount(sb, d) + Blocks(d, addrs)
    ensures Tied(sb, e, NoAddrs(), rest) && NoHoles(e, NoAddrs(), 0) && NoSpares(e, NoAddrs(), 0)
  {
    forall b | 0 <= b < sb.size
      ensures !OwnsFrom(d, addrs, t, b) && !Owns(e, NoAddrs(), b)
    {
    }
  }
}
