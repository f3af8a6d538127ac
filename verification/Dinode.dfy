/** On-disk inodes: eight to a block, sixteen words each. */
module Dinode {
  import opened Words
  import opened Bitmap
  import opened Inode

  const IPB: nat := 8
  const DWORDS: nat := 16

  /** The C type short. */
  type Short = x: int | -0x8000 <= x < 0x8000

  datatype Dino = Dino(typ: Short, major: Short, minor: Short, nlink: Short, size: nat, addrs: seq<nat>)

  ghost predicate DinoOk(x: Dino) {
    x.size < WORD_LIMIT && |x.addrs| == NDIRECT + 1 && forall i | 0 <= i < |x.addrs| :: x.addrs[i] < WORD_LIMIT
  }

  /** Two shorts side by side in a word, low one first. */
  function Pair(lo: Short, hi: Short): (w: nat)
    ensures w < WORD_LIMIT
  {
    lo % 0x10000 + 0x10000 * (hi % 0x10000)
  }

  function Low(w: nat): Short {
    var u := w % 0x10000;
    if u < 0x8000 then u else u - 0x10000
  }

  function High(w: nat): Short
    requires w < WORD_LIMIT
  {
    Low(w / 0x10000)
  }

  lemma PairParts(lo: Short, hi: Short)
    ensures Low(Pair(lo, hi)) == lo && High(Pair(lo, hi)) == hi
  {
    var a, b := lo % 0x10000, hi % 0x10000;
    assert (a + 0x10000 * b) / 0x10000 == b && (a + 0x10000 * b) % 0x10000 == a;
  }

  // ---- runs of words ----

  function GetWords(b: Block, lo: nat, hi: nat): (ws: seq<nat>)
    requires lo <= hi <= NINDIRECT
    ensures |ws| == hi - lo && forall i | 0 <= i < hi - lo :: ws[i] < WORD_LIMIT
    decreases hi - lo
  {
    if lo == hi then [] else [GetWord(b, lo)] + GetWords(b, lo + 1, hi)
  }

  function PutWords(b: Block, base: nat, ws: seq<nat>): Block
    requires base + |ws| <= NINDIRECT && forall i | 0 <= i < |ws| :: ws[i] < WORD_LIMIT
    decreases |ws|
  {
    if ws == [] then b else PutWords(PutWord(b, base, ws[0]), base + 1, ws[1..])
  }

  lemma {:induction false} PutWordsAt(b: Block, base: nat, ws: seq<nat>, i: nat)
    requires base + |ws| <= NINDIRECT && i < NINDIRECT && forall i | 0 <= i < |ws| :: ws[i] < WORD_LIMIT
    ensures GetWord(PutWords(b, base, ws), i) == if base <= i < base + |ws| then ws[i - base] else GetWord(b, i)
    decreases |ws|
  {
    if ws != [] {
      PutWordsAt(PutWord(b, base, ws[0]), base + 1, ws[1..], i);
      GetPut(b, base, ws[0], i);
    }
  }

  lemma {:induction false} GetWordsAt(b: Block, lo: nat, hi: nat, i: nat)
    requires lo <= hi <= NINDIRECT && i < hi - lo
    ensures GetWords(b, lo, hi)[i] == GetWord(b, lo + i)
    decreases hi - lo
  {
    if i > 0 {
      GetWordsAt(b, lo + 1, hi, i - 1);
    }
  }

  // ---- one inode in a block ----

  function Encode(x: Dino): (ws: seq<nat>)
    requires DinoOk(x)
    ensures |ws| == DWORDS && forall i | 0 <= i < DWORDS :: ws[i] < WORD_LIMIT
  {
    [Pair(x.typ, x.major), Pair(x.minor, x.nlink), x.size] + x.addrs
  }

  function Decode(ws: seq<nat>): Dino
    requires |ws| == DWORDS && ws[0] < WORD_LIMIT && ws[1] < WORD_LIMIT
  {
    Dino(Low(ws[0]), High(ws[0]), Low(ws[1]), High(ws[1]), ws[2], ws[3..])
  }

  lemma DecodeEncode(x: Dino)
    requires DinoOk(x)
    ensures Decode(Encode(x)) == x
  {
    PairParts(x.typ, x.major);
    PairParts(x.minor, x.nlink);
    assert Encode(x)[3..] == x.addrs;
  }

  // ---- the words of one inode in a block, and on the disk ----

  lemma GetPutWords(b: Block, base: nat, ws: seq<nat>, lo: nat, hi: nat)
    requires base + |ws| <= NINDIRECT && lo <= hi <= NINDIRECT && forall i | 0 <= i < |ws| :: ws[i] < WORD_LIMIT
    requires (lo == base && hi == base + |ws|) || hi <= base || base + |ws| <= lo
    ensures GetWords(PutWords(b, base, ws), lo, hi) == if lo == base && hi == base + |ws| then ws else GetWords(b, lo, hi)
  {
    var c := PutWords(b, base, ws);
    var got := GetWords(c, lo, hi);
    var want := if lo == base && hi == base + |ws| then ws else GetWords(b, lo, hi);
    forall i | 0 <= i < hi - lo
      ensures got[i] == want[i]
    {
      GetWordsAt(c, lo, hi, i);
      GetWordsAt(b, lo, hi, i);
      PutWordsAt(b, base, ws, lo + i);
    }
    assert got == want;
  }

  /** IBLOCK(inum, sb). */
  function InodeBlock(sb: Super, inum: nat): (b: nat)
    requires Layout(sb) && inum < sb.ninodes
    ensures b < sb.bmapstart < DataStart(sb) <= sb.size
  {
    inum / IPB + sb.inodestart
  }

  function InodeWords(sb: Super, d: Disk, inum: nat): (ws: seq<nat>)
    requires FsDisk(sb, d) && inum < sb.ninodes
    ensures |ws| == DWORDS && forall i | 0 <= i < DWORDS :: ws[i] < WORD_LIMIT
  {
    GetWords(d[InodeBlock(sb, inum)], DWORDS * (inum % IPB), DWORDS * (inum % IPB) + DWORDS)
  }

  function PutInodeWords(sb: Super, d: Disk, inum: nat, ws: seq<nat>): (r: Disk)
    requires FsDisk(sb, d) && inum < sb.ninodes
    requires |ws| == DWORDS && forall i | 0 <= i < DWORDS :: ws[i] < WORD_LIMIT
    ensures FsDisk(sb, r) && forall b | 0 <= b < |d| && b != InodeBlock(sb, inum) :: r[b] == d[b]
  {
    var b := InodeBlock(sb, inum);
    d[b := PutWords(d[b], DWORDS * (inum % IPB), ws)]
  }

  lemma SamePlace(i: nat, j: nat)
    requires i / IPB == j / IPB && i % IPB == j % IPB
    ensures i == j
  {
    assert i == IPB * (i / IPB) + i % IPB && j == IPB * (j / IPB) + j % IPB;
  }

  lemma PlacePut(b: Block, k: nat, ws: seq<nat>, l: nat)
    requires k < IPB && l < IPB && |ws| == DWORDS && forall i | 0 <= i < DWORDS :: ws[i] < WORD_LIMIT
    ensures GetWords(PutWords(b, DWORDS * k, ws), DWORDS * l, DWORDS * l + DWORDS)
         == if l == k then ws else GetWords(b, DWORDS * l, DWORDS * l + DWORDS)
  {
    GetPutWords(b, DWORDS * k, ws, DWORDS * l, DWORDS * l + DWORDS);
  }

  lemma BlockPlacePut(d: Disk, b: nat, k: nat, ws: seq<nat>, c: nat, l: nat)
    requires b < |d| && c < |d| && k < IPB && l < IPB
    requires |ws| == DWORDS && forall i | 0 <= i < DWORDS :: ws[i] < WORD_LIMIT
    ensures GetWords(d[b := PutWords(d[b], DWORDS * k, ws)][c], DWORDS * l, DWORDS * l + DWORDS)
         == if b == c && l == k then ws else GetWords(d[c], DWORDS * l, DWORDS * l + DWORDS)
  {
    if b == c {
      PlacePut(d[b], k, ws, l);
    }
  }

  lemma InodeWordsPut(sb: Super, d: Disk, inum: nat, ws: seq<nat>, j: nat)
    requires FsDisk(sb, d) && inum < sb.ninodes && j < sb.ninodes
    requires |ws| == DWORDS && forall i | 0 <= i < DWORDS :: ws[i] < WORD_LIMIT
    ensures InodeWords(sb, PutInodeWords(sb, d, inum, ws), j) == if j == inum then ws else InodeWords(sb, d, j)
  {
    BlockPlacePut(d, InodeBlock(sb, inum), inum % IPB, ws, InodeBlock(sb, j), j % IPB);
    if inum / IPB == j / IPB && inum % IPB == j % IPB {
      SamePlace(inum, j);
    }
  }

  // ---- inodes of the disk ----

  function ReadDino(sb: Super, d: Disk, inum: nat): (x: Dino)
    requires FsDisk(sb, d) && inum < sb.ninodes
    ensures DinoOk(x)
  {
    Decode(InodeWords(sb, d, inum))
  }

  function WriteDino(sb: Super, d: Disk, inum: nat, x: Dino): (r: Disk)
    requires FsDisk(sb, d) && inum < sb.ninodes && DinoOk(x)
    ensures FsDisk(sb, r) && forall b | 0 <= b < |d| && b != InodeBlock(sb, inum) :: r[b] == d[b]
  {
    PutInodeWords(sb, d, inum, Encode(x))
  }

  /** An inode written to its block is read back, and the other inodes keep theirs. */
  lemma ReadWriteDino(sb: Super, d: Disk, inum: nat, x: Dino, j: nat)
    requires FsDisk(sb, d) && inum < sb.ninodes && j < sb.ninodes && DinoOk(x)
    ensures ReadDino(sb, WriteDino(sb, d, inum, x), j) == if j == inum then x else ReadDino(sb, d, j)
  {
    InodeWordsPut(sb, d, inum, Encode(x), j);
    DecodeEncode(x);
  }
}
