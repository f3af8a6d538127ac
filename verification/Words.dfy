/** Disk blocks as byte sequences, and the little-endian 32-bit words the kernel
    reads and writes through casts such as `(uint*)bp->data`. */
module Words {

  newtype byte = x: int | 0 <= x < 256

  const BSIZE: nat := 512
  const WORD_LIMIT: nat := 0x1_0000_0000

  type Block = b: seq<byte> | |b| == BSIZE witness seq(BSIZE, i => 0 as byte)

  function ZeroBlock(): (b: Block) {
    seq(BSIZE, i => 0 as byte)
  }

  /** The bytes lo .. hi - 1, least significant first. */
  function Le(b: Block, lo: nat, hi: nat): nat
    requires lo <= hi <= BSIZE
    decreases hi - lo
  {
    if lo == hi then 0 else b[lo] as nat + 256 * Le(b, lo + 1, hi)
  }

  function PutLe(b: Block, lo: nat, hi: nat, w: nat): Block
    requires lo <= hi <= BSIZE
    decreases hi - lo
  {
    if lo == hi then b else PutLe(b[lo := (w % 256) as byte], lo + 1, hi, w / 256)
  }

  function Pow256(k: nat): nat { if k == 0 then 1 else 256 * Pow256(k - 1) }

  lemma {:induction false} LeBound(b: Block, lo: nat, hi: nat)
    requires lo <= hi <= BSIZE
    ensures Le(b, lo, hi) < Pow256(hi - lo)
    decreases hi - lo
  {
    if lo < hi {
      LeBound(b, lo + 1, hi);
    }
  }

  lemma {:induction false} PutLeOutside(b: Block, lo: nat, hi: nat, w: nat, x: nat)
    requires lo <= hi <= BSIZE && x < BSIZE && !(lo <= x < hi)
    ensures PutLe(b, lo, hi, w)[x] == b[x]
    decreases hi - lo
  {
    if lo < hi {
      PutLeOutside(b[lo := (w % 256) as byte], lo + 1, hi, w / 256, x);
    }
  }

  lemma {:induction false} LeFrame(b: Block, c: Block, lo: nat, hi: nat)
    requires lo <= hi <= BSIZE && forall x | lo <= x < hi :: b[x] == c[x]
    ensures Le(b, lo, hi) == Le(c, lo, hi)
    decreases hi - lo
  {
    if lo < hi {
      LeFrame(b, c, lo + 1, hi);
    }
  }

  lemma {:induction false} LePut(b: Block, lo: nat, hi: nat, w: nat)
    requires lo <= hi <= BSIZE && w < Pow256(hi - lo)
    ensures Le(PutLe(b, lo, hi, w), lo, hi) == w
    decreases hi - lo
  {
    if lo < hi {
      var c := b[lo := (w % 256) as byte];
      LePut(c, lo + 1, hi, w / 256);
      PutLeOutside(c, lo + 1, hi, w / 256, lo);
    }
  }

  lemma FourBytes()
    ensures Pow256(4) == WORD_LIMIT
  {
    assert Pow256(2) == 65536;
  }

  function GetWord(b: Block, i: nat): (w: nat)
    requires 4 * i + 4 <= BSIZE
    ensures w < WORD_LIMIT
  {
    FourBytes();
    LeBound(b, 4 * i, 4 * i + 4);
    Le(b, 4 * i, 4 * i + 4)
  }

  function PutWord(b: Block, i: nat, w: nat): (c: Block)
    requires 4 * i + 4 <= BSIZE
    requires w < WORD_LIMIT
  {
    PutLe(b, 4 * i, 4 * i + 4, w)
  }

  /** A word written is read back, and every other word keeps its value. */
  lemma GetPut(b: Block, i: nat, w: nat, j: nat)
    requires 4 * i + 4 <= BSIZE && 4 * j + 4 <= BSIZE
    requires w < WORD_LIMIT
    ensures GetWord(PutWord(b, i, w), j) == if i == j then w else GetWord(b, j)
  {
    FourBytes();
    if i == j {
      LePut(b, 4 * i, 4 * i + 4, w);
    } else {
      var c := PutWord(b, i, w);
      forall x | 4 * j <= x < 4 * j + 4
        ensures c[x] == b[x]
      {
        PutLeOutside(b, 4 * i, 4 * i + 4, w, x);
      }
      LeFrame(c, b, 4 * j, 4 * j + 4);
    }
  }

  lemma {:induction false} ZeroLe(lo: nat, hi: nat)
    requires lo <= hi <= BSIZE
    ensures Le(ZeroBlock(), lo, hi) == 0
    decreases hi - lo
  {
    if lo < hi {
      ZeroLe(lo + 1, hi);
    }
  }

  lemma ZeroWord(i: nat)
    requires 4 * i + 4 <= BSIZE
    ensures GetWord(ZeroBlock(), i) == 0
  {
    ZeroLe(4 * i, 4 * i + 4);
  }
}
