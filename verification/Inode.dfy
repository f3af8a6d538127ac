/** Which disk blocks an inode owns, and bmap, which adds to them. */
module Inode {
  import opened Words
  import opened Bitmap

  const NDIRECT: nat := 12
  const NINDIRECT: nat := 128
  const MAXFILE: nat := 140

  /** The 141 places where an inode keeps a block number: addrs[0..12], addrs[12]
      naming the indirect block, then the words of the indirect block. */
  const NSLOT: nat := 141

  function Slot(d: Disk, addrs: seq<nat>, i: nat): (a: nat)
    requires |addrs| == NDIRECT + 1 && i < NSLOT
  {
    if i <= NDIRECT then addrs[i]
    else if addrs[NDIRECT] == 0 || addrs[NDIRECT] >= |d| then 0
    else GetWord(d[addrs[NDIRECT]], i - NDIRECT - 1)
  }

  /** The slot of file block bn. */
  function FileSlot(bn: nat): nat { if bn < NDIRECT then bn else bn + 1 }

  /** The disk block of file block bn; 0 if there is none yet. */
  function FileBlock(d: Disk, addrs: seq<nat>, bn: nat): nat
    requires |addrs| == NDIRECT + 1 && bn < MAXFILE
  {
    Slot(d, addrs, FileSlot(bn))
  }

  ghost predicate Owns(d: Disk, addrs: seq<nat>, b: nat)
    requires |addrs| == NDIRECT + 1
  {
    b != 0 && exists i :: 0 <= i < NSLOT && Slot(d, addrs, i) == b
  }

  /** Slots i and j do not name the same block. */
  ghost predicate Apart(d: Disk, addrs: seq<nat>, i: int, j: int)
    requires |addrs| == NDIRECT + 1 && 0 <= i < NSLOT && 0 <= j < NSLOT
  {
    Slot(d, addrs, i) != 0 && i != j ==> Slot(d, addrs, i) != Slot(d, addrs, j)
  }

  /** No block is named twice, and all are data blocks. */
  ghost predicate SlotsOk(sb: Super, d: Disk, addrs: seq<nat>) {
    && |addrs| == NDIRECT + 1
    && (forall i | 0 <= i < NSLOT && Slot(d, addrs, i) != 0 :: DataStart(sb) <= Slot(d, addrs, i) < sb.size)
    && (forall i, j {:trigger Apart(d, addrs, i, j)} | 0 <= i < NSLOT && 0 <= j < NSLOT :: Apart(d, addrs, i, j))
  }

  /** The bitmap marks exactly the inode's blocks and `rest`, which they are apart
      from; the blocks before the data area belong to `rest`. */
  ghost predicate Tied(sb: Super, d: Disk, addrs: seq<nat>, rest: set<nat>) {
    && FsDisk(sb, d) && SlotsOk(sb, d, addrs)
    && (forall b {:trigger Used(sb, d, b)} | 0 <= b < sb.size :: Used(sb, d, b) <==> b in rest || Owns(d, addrs, b))
    && (forall i | 0 <= i < NSLOT && Slot(d, addrs, i) != 0 :: Slot(d, addrs, i) !in rest)
    && (forall b | 0 <= b < DataStart(sb) :: b in rest)
  }

  // ---- what allocation keeps ----

  /** (d', addrs') is (d, addrs) with block b, free before, now in slot j. */
  ghost predicate Added(sb: Super, d: Disk, addrs: seq<nat>, d': Disk, addrs': seq<nat>, j: nat, b: nat) {
    && FsDisk(sb, d) && FsDisk(sb, d') && |addrs| == |addrs'| == NDIRECT + 1 && j < NSLOT
    && DataStart(sb) <= b < sb.size && !Used(sb, d, b)
    && Slot(d, addrs, j) == 0 && Slot(d', addrs', j) == b
    && (forall i | 0 <= i < NSLOT && i != j :: Slot(d', addrs', i) == Slot(d, addrs, i))
    && (forall c | 0 <= c < sb.size :: Used(sb, d', c) == (c == b || Used(sb, d, c)))
  }

  lemma AddedTied(sb: Super, d: Disk, addrs: seq<nat>, d': Disk, addrs': seq<nat>, j: nat, b: nat, rest: set<nat>)
    requires Tied(sb, d, addrs, rest) && Added(sb, d, addrs, d', addrs', j, b)
    ensures Tied(sb, d', addrs', rest)
  {
    FreshSlot(sb, d, addrs, rest, b);
    forall c | 0 <= c < sb.size
      ensures Owns(d', addrs', c) <==> c == b || Owns(d, addrs, c)
    {
      if Owns(d, addrs, c) {
        var i :| 0 <= i < NSLOT && Slot(d, addrs, i) == c;
        assert i != j && Slot(d', addrs', i) == c;
      }
      if Owns(d', addrs', c) {
        var i :| 0 <= i < NSLOT && Slot(d', addrs', i) == c;
        assert i != j ==> Slot(d, addrs, i) == c;
      }
      assert c == b ==> Slot(d', addrs', j) == c;
    }
    forall i, k | 0 <= i < NSLOT && 0 <= k < NSLOT
      ensures Apart(d', addrs', i, k)
    {
      assert Apart(d, addrs, i, k);
    }
  }

  /** A free block is in no slot and not in the rest. */
  lemma FreshSlot(sb: Super, d: Disk, addrs: seq<nat>, rest: set<nat>, b: nat)
    requires Tied(sb, d, addrs, rest) && b < sb.size && !Used(sb, d, b)
    ensures DataStart(sb) <= b && b !in rest
    ensures forall i | 0 <= i < NSLOT :: Slot(d, addrs, i) != b
  {
    forall i | 0 <= i < NSLOT
      ensures Slot(d, addrs, i) != b
    {
      if Slot(d, addrs, i) == b {
        assert Owns(d, addrs, b);
      }
    }
  }

  /** The indirect words survive a write elsewhere. */
  lemma SlotFrame(d: Disk, d': Disk, addrs: seq<nat>)
    requires |addrs| == NDIRECT + 1 && |d| == |d'|
    requires addrs[NDIRECT] < |d| ==> addrs[NDIRECT] == 0 || d'[addrs[NDIRECT]] == d[addrs[NDIRECT]]
    ensures forall i | 0 <= i < NSLOT :: Slot(d', addrs, i) == Slot(d, addrs, i)
  {
  }

  lemma TakenUsedAll(sb: Super, d: Disk, b: nat)
    requires FsDisk(sb, d) && DataStart(sb) <= b < sb.size
    ensures forall c | 0 <= c < sb.size :: Used(sb, Taken(sb, d, b), c) == (c == b || Used(sb, d, c))
    ensures !IsBitmapBlock(sb, b) && IsBitmapBlock(sb, BitmapBlock(sb, b))
  {
    forall c | 0 <= c < sb.size
      ensures Used(sb, Taken(sb, d, b), c) == (c == b || Used(sb, d, c))
    {
      TakenUsed(sb, d, b, c);
    }
  }

  /** The slots after entry i of addrs is set to a block that was taken. */
  lemma EntrySlots(d: Disk, d': Disk, addrs: seq<nat>, i: nat, b: nat)
    requires |addrs| == NDIRECT + 1 && |d| == |d'| && i <= NDIRECT && b < |d|
    requires i < NDIRECT && addrs[NDIRECT] < |d| ==> addrs[NDIRECT] == 0 || d'[addrs[NDIRECT]] == d[addrs[NDIRECT]]
    requires i == NDIRECT ==> addrs[NDIRECT] == 0 && d'[b] == ZeroBlock()
    ensures forall k | 0 <= k < NSLOT :: Slot(d', addrs[i := b], k) == if k == i then b else Slot(d, addrs, k)
  {
    forall k | 0 <= k < NINDIRECT
      ensures GetWord(ZeroBlock(), k) == 0
    {
      ZeroWord(k);
    }
  }

  /** balloc for one of the inode's own thirteen entries. */
  lemma EntryAdds(sb: Super, d: Disk, addrs: seq<nat>, i: nat, b: nat, rest: set<nat>)
    requires Tied(sb, d, addrs, rest) && i <= NDIRECT && addrs[i] == 0 && b < sb.size && !Used(sb, d, b)
    ensures Added(sb, d, addrs, Taken(sb, d, b), addrs[i := b], i, b)
  {
    FreshSlot(sb, d, addrs, rest, b);
    TakenUsedAll(sb, d, b);
    assert addrs[NDIRECT] == Slot(d, addrs, NDIRECT);
    EntrySlots(d, Taken(sb, d, b), addrs, i, b);
  }

  lemma IndirectSlots(d: Disk, d': Disk, addrs: seq<nat>, k: nat, b: nat)
    requires |addrs| == NDIRECT + 1 && |d| == |d'| && k < NINDIRECT && 0 < addrs[NDIRECT] < |d| && b < WORD_LIMIT
    requires d'[addrs[NDIRECT]] == PutWord(d[addrs[NDIRECT]], k, b)
    ensures forall i | 0 <= i < NSLOT ::
              Slot(d', addrs, i) == if i == NDIRECT + 1 + k then b else Slot(d, addrs, i)
  {
    forall i | NDIRECT < i < NSLOT
      ensures Slot(d', addrs, i) == if i == NDIRECT + 1 + k then b else Slot(d, addrs, i)
    {
      GetPut(d[addrs[NDIRECT]], k, b, i - NDIRECT - 1);
    }
  }

  lemma UsedFrameAll(sb: Super, d: Disk, x: nat, v: Block)
    requires FsDisk(sb, d) && DataStart(sb) <= x < |d|
    ensures forall c | 0 <= c < sb.size :: Used(sb, d[x := v], c) == Used(sb, d, c)
  {
    forall c | 0 <= c < sb.size
      ensures Used(sb, d[x := v], c) == Used(sb, d, c)
    {
      UsedFrame(sb, d, d[x := v], c);
    }
  }

  /** The disk once entry k of indirect block `ind` names the block b just taken. */
  function TakenIndirect(sb: Super, d: Disk, ind: nat, k: nat, b: nat): (r: Disk)
    requires FsDisk(sb, d) && k < NINDIRECT && ind < |d| && b < sb.size
    ensures FsDisk(sb, r)
  {
    Taken(sb, d, b)[ind := PutWord(Taken(sb, d, b)[ind], k, b)]
  }

  /** balloc for entry k of the indirect block. */
  lemma IndirectAdds(sb: Super, d: Disk, addrs: seq<nat>, k: nat, b: nat, rest: set<nat>)
    requires Tied(sb, d, addrs, rest) && k < NINDIRECT && addrs[NDIRECT] != 0
    requires Slot(d, addrs, NDIRECT + 1 + k) == 0 && b < sb.size && !Used(sb, d, b)
    ensures DataStart(sb) <= addrs[NDIRECT] < |d|
    ensures Added(sb, d, addrs, TakenIndirect(sb, d, addrs[NDIRECT], k, b), addrs, NDIRECT + 1 + k, b)
  {
    var ind := addrs[NDIRECT];
    assert ind == Slot(d, addrs, NDIRECT);
    FreshSlot(sb, d, addrs, rest, b);
    TakenUsedAll(sb, d, b);
    var t := Taken(sb, d, b);
    var d' := t[ind := PutWord(t[ind], k, b)];
    assert t[ind] == d[ind];
    IndirectSlots(d, d', addrs, k, b);
    UsedFrameAll(sb, t, ind, PutWord(t[ind], k, b));
  }

  // ---- bmap, as a whole ----

  /** What bmap(bn) may do to the inode's blocks and to everyone else's: it leaves
      (d, addrs) as (e, eddrs) and returns a. */
  ghost predicate BmapEffect(sb: Super, d: Disk, addrs: seq<nat>, rest: set<nat>, bn: nat,
                             e: Disk, eddrs: seq<nat>, a: nat) {
    && Tied(sb, d, addrs, rest) && Tied(sb, e, eddrs, rest) && bn < MAXFILE
    && a == FileBlock(e, eddrs, bn) && 0 != a < |e|
    // blocks named before are still named, and file blocks keep their contents
    && (forall i | 0 <= i < NSLOT && Slot(d, addrs, i) != 0 ::
          Slot(e, eddrs, i) == Slot(d, addrs, i)
          && (i != NDIRECT ==> Slot(d, addrs, i) < |d| && e[Slot(d, addrs, i)] == d[Slot(d, addrs, i)]))
    // nothing else is named now, but the block asked for and the indirect block
    && (forall i | 0 <= i < NSLOT && i != FileSlot(bn) && i != NDIRECT :: Slot(e, eddrs, i) == Slot(d, addrs, i))
    && (bn < NDIRECT ==> eddrs[NDIRECT] == addrs[NDIRECT])
    && (FileBlock(d, addrs, bn) == 0 ==> e[a] == ZeroBlock())
    && RestKept(sb, d, e, rest)
  }

  /** Blocks of others, but for the bitmap, are as they were. */
  ghost predicate RestKept(sb: Super, d: Disk, e: Disk, rest: set<nat>) {
    |e| == |d| && forall x | x in rest && x < |d| && !IsBitmapBlock(sb, x) :: e[x] == d[x]
  }

  /** bmap finds the block already there. */
  lemma FoundEffect(sb: Super, d: Disk, addrs: seq<nat>, rest: set<nat>, bn: nat)
    requires Tied(sb, d, addrs, rest) && bn < MAXFILE && FileBlock(d, addrs, bn) != 0
    ensures BmapEffect(sb, d, addrs, rest, bn, d, addrs, FileBlock(d, addrs, bn))
  {
  }

  lemma EntryEffect(sb: Super, d: Disk, addrs: seq<nat>, i: nat, b: nat, rest: set<nat>)
    requires Tied(sb, d, addrs, rest) && i <= NDIRECT && addrs[i] == 0 && b < sb.size && !Used(sb, d, b)
    ensures var e, eddrs := Taken(sb, d, b), addrs[i := b];
            && Tied(sb, e, eddrs, rest) && Slot(e, eddrs, i) == b != 0
            && (forall k | 0 <= k < NSLOT && k != i :: Slot(e, eddrs, k) == Slot(d, addrs, k))
            && (forall k | 0 <= k < NSLOT && Slot(d, addrs, k) != 0 ::
                  Slot(d, addrs, k) < |d| && e[Slot(d, addrs, k)] == d[Slot(d, addrs, k)])
            && RestKept(sb, d, e, rest)
    ensures i < NDIRECT ==> BmapEffect(sb, d, addrs, rest, i, Taken(sb, d, b), addrs[i := b], b)
  {
    EntryAdds(sb, d, addrs, i, b, rest);
    AddedTied(sb, d, addrs, Taken(sb, d, b), addrs[i := b], i, b, rest);
    FreshSlot(sb, d, addrs, rest, b);
    TakenUsedAll(sb, d, b);
  }

  lemma IndirectEffect(sb: Super, d: Disk, addrs: seq<nat>, k: nat, b: nat, rest: set<nat>)
    requires Tied(sb, d, addrs, rest) && k < NINDIRECT && addrs[NDIRECT] != 0
    requires Slot(d, addrs, NDIRECT + 1 + k) == 0 && b < sb.size && !Used(sb, d, b)
    ensures addrs[NDIRECT] < |d|
    ensures BmapEffect(sb, d, addrs, rest, NDIRECT + k, TakenIndirect(sb, d, addrs[NDIRECT], k, b), addrs, b)
  {
    IndirectAdds(sb, d, addrs, k, b, rest);
    var e := TakenIndirect(sb, d, addrs[NDIRECT], k, b);
    AddedTied(sb, d, addrs, e, addrs, NDIRECT + 1 + k, b, rest);
    FreshSlot(sb, d, addrs, rest, b);
    TakenUsedAll(sb, d, b);
    assert Slot(d, addrs, NDIRECT) == addrs[NDIRECT];
    forall i | 0 <= i < NSLOT && i != NDIRECT && Slot(d, addrs, i) != 0
      ensures e[Slot(d, addrs, i)] == d[Slot(d, addrs, i)]
    {
      assert Apart(d, addrs, i, NDIRECT);
    }
  }

  /** Taking the indirect block first, then what bmap does with it in place. */
  lemma ThroughIndirect(sb: Super, d: Disk, addrs: seq<nat>, b: nat, rest: set<nat>, bn: nat,
                        e: Disk, eddrs: seq<nat>, a: nat)
    requires Tied(sb, d, addrs, rest) && addrs[NDIRECT] == 0 && b < sb.size && !Used(sb, d, b) && bn >= NDIRECT
    requires BmapEffect(sb, Taken(sb, d, b), addrs[NDIRECT := b], rest, bn, e, eddrs, a)
    ensures BmapEffect(sb, d, addrs, rest, bn, e, eddrs, a)
  {
    EntryEffect(sb, d, addrs, NDIRECT, b, rest);
  }

  // ---- counting free blocks ----

  function FreeFrom(sb: Super, d: Disk, from: nat): (n: nat)
    requires FsDisk(sb, d) && from <= sb.size
    decreases sb.size - from
  {
    if from == sb.size then 0 else (if Used(sb, d, from) then 0 else 1) + FreeFrom(sb, d, from + 1)
  }

  lemma {:induction false} NoneFree(sb: Super, d: Disk, from: nat)
    requires FsDisk(sb, d) && from <= sb.size
    ensures FreeFrom(sb, d, from) == 0 <==> forall b | from <= b < sb.size :: Used(sb, d, b)
    decreases sb.size - from
  {
    if from < sb.size {
      NoneFree(sb, d, from + 1);
    }
  }

  /** The number of free blocks on the disk. */
  function FreeCount(sb: Super, d: Disk): nat
    requires FsDisk(sb, d)
  {
    FreeFrom(sb, d, 0)
  }

  lemma {:induction false} FreeFromTaken(sb: Super, d: Disk, e: Disk, b: nat, from: nat)
    requires FsDisk(sb, d) && FsDisk(sb, e) && from <= sb.size && b < sb.size && !Used(sb, d, b)
    requires forall c | 0 <= c < sb.size :: Used(sb, e, c) == (c == b || Used(sb, d, c))
    ensures FreeFrom(sb, e, from) == FreeFrom(sb, d, from) - if from <= b then 1 else 0
    decreases sb.size - from
  {
    if from < sb.size {
      FreeFromTaken(sb, d, e, b, from + 1);
    }
  }

  lemma {:induction false} FreeFromSame(sb: Super, d: Disk, e: Disk, from: nat)
    requires FsDisk(sb, d) && FsDisk(sb, e) && from <= sb.size
    requires forall c | 0 <= c < sb.size :: Used(sb, e, c) == Used(sb, d, c)
    ensures FreeFrom(sb, e, from) == FreeFrom(sb, d, from)
    decreases sb.size - from
  {
    if from < sb.size {
      FreeFromSame(sb, d, e, from + 1);
    }
  }

  lemma AddedCount(sb: Super, d: Disk, addrs: seq<nat>, e: Disk, eddrs: seq<nat>, j: nat, b: nat)
    requires Added(sb, d, addrs, e, eddrs, j, b)
    ensures FreeCount(sb, d) > 0 && FreeCount(sb, e) == FreeCount(sb, d) - 1
  {
    FreeFromTaken(sb, d, e, b, 0);
  }

  /** Blocks bmap(bn) has to take. */
  function Missing(d: Disk, addrs: seq<nat>, bn: nat): nat
    requires |addrs| == NDIRECT + 1 && bn < MAXFILE
  {
    (if FileBlock(d, addrs, bn) == 0 then 1 else 0) + (if bn >= NDIRECT && addrs[NDIRECT] == 0 then 1 else 0)
  }
}
