/** The free-block bitmap of fs.c, as bits of disk blocks, and the block allocator. */
module Bitmap {
  import opened Basics
  import opened Words

  /** Bitmap bits per block. */
  const BPB: nat := 4096

  type Disk = seq<Block>

  /** The superblock fields the block layer uses. Data blocks follow the bitmap. */
  datatype Super = Super(size: nat, ninodes: nat, inodestart: nat, bmapstart: nat)

  function DataStart(sb: Super): nat { sb.bmapstart + sb.size / BPB + 1 }

  ghost predicate Layout(sb: Super) {
    && sb.inodestart + sb.ninodes / 8 + 1 <= sb.bmapstart
    && DataStart(sb) <= sb.size < WORD_LIMIT
  }

  ghost predicate FsDisk(sb: Super, d: Disk) { Layout(sb) && |d| == sb.size }

  // ---- bits of a byte ----

  /** x & (1 << k) is not zero. */
  predicate TestBit(x: nat, k: nat)
    decreases k
  {
    if k == 0 then x % 2 == 1 else TestBit(x / 2, k - 1)
  }

  /** x | (1 << k), and x & ~(1 << k). */
  function PutBit(x: nat, k: nat, on: bool): (r: nat)
    decreases k
  {
    if k == 0 then x - x % 2 + (if on then 1 else 0)
    else 2 * PutBit(x / 2, k - 1, on) + x % 2
  }

  function Pow2(n: nat): (p: nat)
    ensures p > 0
  {
    if n == 0 then 1 else 2 * Pow2(n - 1)
  }

  lemma {:induction false} PutBitFits(x: nat, k: nat, on: bool, n: nat)
    requires k < n && x < Pow2(n)
    ensures PutBit(x, k, on) < Pow2(n)
  {
    if k > 0 {
      PutBitFits(x / 2, k - 1, on, n - 1);
    }
  }

  lemma {:induction false} TestPut(x: nat, k: nat, on: bool, j: nat)
    ensures TestBit(PutBit(x, k, on), j) == if j == k then on else TestBit(x, j)
    decreases k
  {
    if k > 0 && j > 0 {
      TestPut(x / 2, k - 1, on, j - 1);
      assert PutBit(x, k, on) / 2 == PutBit(x / 2, k - 1, on);
    }
  }

  // ---- bits of a block ----

  predicate BlockBit(b: Block, i: nat)
    requires i < BPB
  {
    TestBit(b[i / 8] as nat, i % 8)
  }

  function PutBlockBit(b: Block, i: nat, on: bool): Block
    requires i < BPB
  {
    assert Pow2(8) == 256 by { assert Pow2(4) == 16; }
    PutBitFits(b[i / 8] as nat, i % 8, on, 8);
    b[i / 8 := PutBit(b[i / 8] as nat, i % 8, on) as byte]
  }

  lemma BlockBitPut(b: Block, i: nat, on: bool, j: nat)
    requires i < BPB && j < BPB
    ensures BlockBit(PutBlockBit(b, i, on), j) == if j == i then on else BlockBit(b, j)
  {
    if i / 8 == j / 8 {
      TestPut(b[i / 8] as nat, i % 8, on, j % 8);
    }
  }

  // ---- the bitmap of the disk ----

  /** BBLOCK(b, sb). */
  function BitmapBlock(sb: Super, b: nat): nat { b / BPB + sb.bmapstart }

  predicate IsBitmapBlock(sb: Super, x: int) { sb.bmapstart <= x < DataStart(sb) }

  predicate Used(sb: Super, d: Disk, b: nat)
    requires b < sb.size && DataStart(sb) <= |d|
  {
    assert b / BPB <= sb.size / BPB;
    BlockBit(d[BitmapBlock(sb, b)], b % BPB)
  }

  function PutUsed(sb: Super, d: Disk, b: nat, on: bool): (r: Disk)
    requires b < sb.size && DataStart(sb) <= |d|
    ensures |r| == |d|
    ensures forall x | 0 <= x < |d| && x != BitmapBlock(sb, b) :: r[x] == d[x]
  {
    assert b / BPB <= sb.size / BPB;
    d[BitmapBlock(sb, b) := PutBlockBit(d[BitmapBlock(sb, b)], b % BPB, on)]
  }

  lemma UsedPut(sb: Super, d: Disk, b: nat, on: bool, c: nat)
    requires b < sb.size && c < sb.size && DataStart(sb) <= |d|
    ensures Used(sb, PutUsed(sb, d, b, on), c) == if c == b then on else Used(sb, d, c)
  {
    if BitmapBlock(sb, b) == BitmapBlock(sb, c) {
      BlockBitPut(d[BitmapBlock(sb, b)], b % BPB, on, c % BPB);
      assert b == BPB * (b / BPB) + b % BPB && c == BPB * (c / BPB) + c % BPB;
    }
  }

  // ---- balloc and bfree ----

  function LeastFree(sb: Super, d: Disk, from: nat): (r: nat)
    requires FsDisk(sb, d) && from <= sb.size
    ensures from <= r <= sb.size
    ensures r < sb.size ==> !Used(sb, d, r)
    ensures forall b | from <= b < r :: Used(sb, d, b)
    decreases sb.size - from
  {
    if from == sb.size || !Used(sb, d, from) then from else LeastFree(sb, d, from + 1)
  }

  /** The disk after balloc takes block b: its bit set, its contents zeroed. */
  function Taken(sb: Super, d: Disk, b: nat): (r: Disk)
    requires FsDisk(sb, d) && b < sb.size
    ensures FsDisk(sb, r) && r[b] == ZeroBlock()
    ensures forall x | 0 <= x < |d| && x != b && x != BitmapBlock(sb, b) :: r[x] == d[x]
  {
    PutUsed(sb, d, b, true)[b := ZeroBlock()]
  }

  /** balloc: the lowest free block, or the panic when there is none. */
  function Alloc(sb: Super, d: Disk): (r: Option<nat>)
    requires FsDisk(sb, d)
    ensures r.Some? ==> r.value < sb.size && !Used(sb, d, r.value)
    ensures r.None? <==> forall b | 0 <= b < sb.size :: Used(sb, d, b)
  {
    var b := LeastFree(sb, d, 0);
    if b < sb.size then Some(b) else None
  }

  /** Contents outside the bitmap do not matter to the bitmap. */
  lemma UsedFrame(sb: Super, d: Disk, e: Disk, c: nat)
    requires FsDisk(sb, d) && FsDisk(sb, e) && c < sb.size
    requires forall x {:trigger IsBitmapBlock(sb, x)} | IsBitmapBlock(sb, x) :: e[x] == d[x]
    ensures Used(sb, e, c) == Used(sb, d, c)
  {
    assert IsBitmapBlock(sb, BitmapBlock(sb, c));
  }

  /** Only the block taken changes from free to used, provided it is a data block. */
  lemma TakenUsed(sb: Super, d: Disk, b: nat, c: nat)
    requires FsDisk(sb, d) && DataStart(sb) <= b < sb.size && c < sb.size
    ensures Used(sb, Taken(sb, d, b), c) == (c == b || Used(sb, d, c))
  {
    UsedPut(sb, d, b, true, c);
    UsedFrame(sb, PutUsed(sb, d, b, true), Taken(sb, d, b), c);
  }
}
