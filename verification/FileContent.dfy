/** The byte sequence an inode holds, and what one turn of writei's loop does to it. */
module FileContent {
  import opened Basics
  import opened Words
  import opened Bitmap
  import opened Inode

  const MAXBYTES: nat := 71680

  function Min(a: nat, b: nat): nat { if a < b then a else b }

  /** memmove into the middle of a block. */
  function Splice(b: Block, o: nat, s: seq<byte>): (r: Block)
    requires o + |s| <= BSIZE
    ensures forall k | 0 <= k < BSIZE :: r[k] == if o <= k < o + |s| then s[k - o] else b[k]
  {
    b[..o] + s + b[o + |s|..]
  }

  /** The byte at offset p of the file, if its block exists. */
  function ByteAt(d: Disk, addrs: seq<nat>, p: nat): Option<byte>
    requires |addrs| == NDIRECT + 1 && p < MAXBYTES
  {
    var a := FileBlock(d, addrs, p / BSIZE);
    if a == 0 || a >= |d| then None else Some(d[a][p % BSIZE])
  }

  /** The blocks below `size` exist. */
  ghost predicate NoHoles(d: Disk, addrs: seq<nat>, size: nat) {
    && |addrs| == NDIRECT + 1 && size <= MAXBYTES
    && (forall bn | 0 <= bn < MAXFILE && bn * BSIZE < size :: FileBlock(d, addrs, bn) != 0)
  }

  /** No others do, nor the indirect block unless one of them needs it. */
  ghost predicate NoSpares(d: Disk, addrs: seq<nat>, size: nat) {
    && |addrs| == NDIRECT + 1 && (addrs[NDIRECT] != 0 ==> NDIRECT * BSIZE < size)
    && (forall bn | 0 <= bn < MAXFILE && FileBlock(d, addrs, bn) != 0 :: bn * BSIZE < size)
  }

  /** The first n bytes of the file. */
  function Content(d: Disk, addrs: seq<nat>, n: nat): (c: seq<byte>)
    requires |addrs| == NDIRECT + 1 && n <= MAXBYTES
    ensures |c| == n
  {
    if n == 0 then [] else
      Content(d, addrs, n - 1) + [match ByteAt(d, addrs, n - 1) case Some(x) => x case None => 0]
  }

  /** c is the file's contents. */
  ghost predicate Holds(d: Disk, addrs: seq<nat>, c: seq<byte>) {
    |addrs| == NDIRECT + 1 && |c| <= MAXBYTES
    && forall p | 0 <= p < |c| :: ByteAt(d, addrs, p) == Some(c[p])
  }

  // ---- what a write keeps ----

  /** A write to file blocks lo .. hi - 1 stays tied to the bitmap, keeps every block
      named so far, names only blocks of the range, and leaves others' blocks alone. */
  ghost predicate WriteEffect(sb: Super, d: Disk, addrs: seq<nat>, rest: set<nat>, lo: nat, hi: nat,
                              e: Disk, eddrs: seq<nat>) {
    && Tied(sb, d, addrs, rest) && Tied(sb, e, eddrs, rest)
    && (forall i | 0 <= i < NSLOT && Slot(d, addrs, i) != 0 :: Slot(e, eddrs, i) == Slot(d, addrs, i))
    && (forall bn | 0 <= bn < MAXFILE && !(lo <= bn < hi) :: FileBlock(e, eddrs, bn) == FileBlock(d, addrs, bn))
    && (forall bn | lo <= bn < hi && bn < MAXFILE :: FileBlock(e, eddrs, bn) != 0)
    && (hi <= NDIRECT || hi <= lo ==> eddrs[NDIRECT] == addrs[NDIRECT])
    && RestKept(sb, d, e, rest)
  }

  /** Writing into a file block disturbs neither the slots nor the bitmap. */
  lemma DataWriteTied(sb: Super, d: Disk, addrs: seq<nat>, rest: set<nat>, i: nat, v: Block)
    requires Tied(sb, d, addrs, rest) && i < NSLOT && i != NDIRECT && Slot(d, addrs, i) != 0
    ensures Slot(d, addrs, i) < |d|
    ensures var e := d[Slot(d, addrs, i) := v];
            && Tied(sb, e, addrs, rest)
            && (forall k | 0 <= k < NSLOT :: Slot(e, addrs, k) == Slot(d, addrs, k))
  {
    var a := Slot(d, addrs, i);
    var e := d[a := v];
    assert Slot(d, addrs, NDIRECT) == addrs[NDIRECT];
    assert Apart(d, addrs, i, NDIRECT);
    SlotFrame(d, e, addrs);
    UsedFrameAll(sb, d, a, v);
    FrameTied(sb, d, e, addrs, rest);
  }

  lemma FrameTied(sb: Super, d: Disk, e: Disk, addrs: seq<nat>, rest: set<nat>)
    requires Tied(sb, d, addrs, rest) && FsDisk(sb, e)
    requires forall k | 0 <= k < NSLOT :: Slot(e, addrs, k) == Slot(d, addrs, k)
    requires forall b | 0 <= b < sb.size :: Used(sb, e, b) == Used(sb, d, b)
    ensures Tied(sb, e, addrs, rest)
  {
    forall b | 0 <= b < sb.size
      ensures Used(sb, e, b) <==> b in rest || Owns(e, addrs, b)
    {
      assert Used(sb, e, b) == Used(sb, d, b);
      OwnsSame(d, e, addrs, b);
    }
    forall i, j | 0 <= i < NSLOT && 0 <= j < NSLOT
      ensures Apart(e, addrs, i, j)
    {
      assert Apart(d, addrs, i, j);
    }
  }

  lemma OwnsSame(d: Disk, e: Disk, addrs: seq<nat>, b: nat)
    requires |addrs| == NDIRECT + 1 && forall k | 0 <= k < NSLOT :: Slot(e, addrs, k) == Slot(d, addrs, k)
    ensures Owns(e, addrs, b) <==> Owns(d, addrs, b)
  {
    if Owns(d, addrs, b) {
      var k :| 0 <= k < NSLOT && Slot(d, addrs, k) == b;
      assert Slot(e, addrs, k) == b;
    }
    if Owns(e, addrs, b) {
      var k :| 0 <= k < NSLOT && Slot(e, addrs, k) == b;
      assert Slot(d, addrs, k) == b;
    }
  }

  /** bmap, then new contents for the block it returned. */
  lemma ChunkEffect(sb: Super, d: Disk, addrs: seq<nat>, rest: set<nat>, bn: nat,
                    e: Disk, eddrs: seq<nat>, a: nat, v: Block)
    requires BmapEffect(sb, d, addrs, rest, bn, e, eddrs, a)
    ensures WriteEffect(sb, d, addrs, rest, bn, bn + 1, e[a := v], eddrs)
    ensures forall k | 0 <= k < NSLOT :: Slot(e[a := v], eddrs, k) == Slot(e, eddrs, k)
  {
    DataWriteTied(sb, e, eddrs, rest, FileSlot(bn), v);
    assert a !in rest;
    forall k | 0 <= k < MAXFILE && k != bn
      ensures FileBlock(e[a := v], eddrs, k) == FileBlock(d, addrs, k)
    {
      assert FileSlot(k) != FileSlot(bn) && FileSlot(k) != NDIRECT;
    }
  }

  lemma EffectTrans(sb: Super, d: Disk, addrs: seq<nat>, rest: set<nat>, lo: nat, mid: nat,
                    e: Disk, eddrs: seq<nat>, f: Disk, fddrs: seq<nat>)
    requires WriteEffect(sb, d, addrs, rest, lo, mid, e, eddrs) && lo <= mid
    requires WriteEffect(sb, e, eddrs, rest, mid, mid + 1, f, fddrs)
    ensures WriteEffect(sb, d, addrs, rest, lo, mid + 1, f, fddrs)
  {
    forall bn | lo <= bn < mid + 1 && bn < MAXFILE
      ensures FileBlock(f, fddrs, bn) != 0
    {
      if bn < mid {
        assert FileBlock(e, eddrs, bn) != 0;
      }
    }
  }

  // ---- bytes ----

  /** Offsets inside one chunk share its block. */
  lemma SameBlock(off: nat, n: nat, p: nat)
    requires off % BSIZE + n <= BSIZE
    ensures off <= p < off + n ==> p / BSIZE == off / BSIZE && p % BSIZE == off % BSIZE + (p - off)
    ensures p / BSIZE == off / BSIZE && !(off <= p < off + n) ==>
              !(off % BSIZE <= p % BSIZE < off % BSIZE + n)
  {
    assert off == BSIZE * (off / BSIZE) + off % BSIZE && p == BSIZE * (p / BSIZE) + p % BSIZE;
    if off <= p < off + n {
      assert BSIZE * (off / BSIZE) <= p < BSIZE * (off / BSIZE) + BSIZE;
    }
  }

  /** The byte at p after one chunk, when p is in the chunk's block. */
  lemma ChunkByteHere(sb: Super, d: Disk, addrs: seq<nat>, rest: set<nat>, e: Disk, eddrs: seq<nat>, a: nat,
                      off: nat, s: seq<byte>, p: nat, f: Disk)
    requires off % BSIZE + |s| <= BSIZE && p < MAXBYTES && p / BSIZE == off / BSIZE
    requires BmapEffect(sb, d, addrs, rest, p / BSIZE, e, eddrs, a)
    requires f == e[a := Splice(e[a], off % BSIZE, s)] && FileBlock(f, eddrs, p / BSIZE) == a
    ensures off <= p < off + |s| ==> ByteAt(f, eddrs, p) == Some(s[p - off])
    ensures !(off <= p < off + |s|) && ByteAt(d, addrs, p).Some? ==> ByteAt(f, eddrs, p) == ByteAt(d, addrs, p)
  {
    SameBlock(off, |s|, p);
    var q := p / BSIZE;
    if FileBlock(d, addrs, q) != 0 {
      assert Slot(d, addrs, FileSlot(q)) == a && FileSlot(q) != NDIRECT;
    }
  }

  /** The byte at p after one chunk, when p is in another block. */
  lemma ChunkByteElsewhere(sb: Super, d: Disk, addrs: seq<nat>, rest: set<nat>, e: Disk, eddrs: seq<nat>, a: nat,
                           bn: nat, p: nat, v: Block, f: Disk)
    requires p < MAXBYTES && p / BSIZE != bn && BmapEffect(sb, d, addrs, rest, bn, e, eddrs, a)
    requires f == e[a := v] && FileBlock(f, eddrs, p / BSIZE) == FileBlock(e, eddrs, p / BSIZE)
    ensures ByteAt(d, addrs, p).Some? ==> ByteAt(f, eddrs, p) == ByteAt(d, addrs, p)
  {
    var q := p / BSIZE;
    if FileBlock(d, addrs, q) != 0 {
      assert FileSlot(q) != FileSlot(bn) && FileSlot(q) != NDIRECT;
      var x := Slot(d, addrs, FileSlot(q));
      assert Slot(e, eddrs, FileSlot(q)) == x && e[x] == d[x];
      assert Apart(e, eddrs, FileSlot(q), FileSlot(bn));
    }
  }

  lemma ChunkByte(sb: Super, d: Disk, addrs: seq<nat>, rest: set<nat>, e: Disk, eddrs: seq<nat>, a: nat,
                  off: nat, s: seq<byte>, p: nat, f: Disk)
    requires off % BSIZE + |s| <= BSIZE && off < MAXBYTES && p < MAXBYTES
    requires BmapEffect(sb, d, addrs, rest, off / BSIZE, e, eddrs, a)
    requires f == e[a := Splice(e[a], off % BSIZE, s)]
    ensures off <= p < off + |s| ==> ByteAt(f, eddrs, p) == Some(s[p - off])
    ensures !(off <= p < off + |s|) && ByteAt(d, addrs, p).Some? ==> ByteAt(f, eddrs, p) == ByteAt(d, addrs, p)
  {
    var v := Splice(e[a], off % BSIZE, s);
    ChunkEffect(sb, d, addrs, rest, off / BSIZE, e, eddrs, a, v);
    if p / BSIZE == off / BSIZE {
      ChunkByteHere(sb, d, addrs, rest, e, eddrs, a, off, s, p, f);
    } else {
      SameBlock(off, |s|, p);
      ChunkByteElsewhere(sb, d, addrs, rest, e, eddrs, a, off / BSIZE, p, v, f);
    }
  }

  /** After `tot` bytes of src have gone to offset off on, starting from (d, addrs). */
  ghost predicate BytesDone(d: Disk, addrs: seq<nat>, off: nat, src: seq<byte>, tot: nat, e: Disk, eddrs: seq<nat>) {
    && |addrs| == |eddrs| == NDIRECT + 1 && tot <= |src|
    && (forall p {:trigger ByteAt(e, eddrs, p)} | 0 <= p < MAXBYTES && off <= p < off + tot ::
          ByteAt(e, eddrs, p) == Some(src[p - off]))
    && (forall p {:trigger ByteAt(e, eddrs, p)} | 0 <= p < MAXBYTES && !(off <= p < off + tot)
                                                  && ByteAt(d, addrs, p).Some? ::
          ByteAt(e, eddrs, p) == ByteAt(d, addrs, p))
  }

  lemma BytesStep(sb: Super, d0: Disk, addrs0: seq<nat>, rest: set<nat>, off: nat, src: seq<byte>, tot: nat, m: nat,
                  d: Disk, addrs: seq<nat>, e: Disk, eddrs: seq<nat>, a: nat, f: Disk)
    requires BytesDone(d0, addrs0, off, src, tot, d, addrs) && tot + m <= |src| && off + |src| <= MAXBYTES
    requires (off + tot) % BSIZE + m <= BSIZE && m > 0
    requires BmapEffect(sb, d, addrs, rest, (off + tot) / BSIZE, e, eddrs, a)
    requires f == e[a := Splice(e[a], (off + tot) % BSIZE, src[tot..tot + m])]
    ensures BytesDone(d0, addrs0, off, src, tot + m, f, eddrs)
  {
    var s := src[tot..tot + m];
    forall p | 0 <= p < MAXBYTES
      ensures off <= p < off + tot + m ==> ByteAt(f, eddrs, p) == Some(src[p - off])
      ensures !(off <= p < off + tot + m) && ByteAt(d0, addrs0, p).Some? ==> ByteAt(f, eddrs, p) == ByteAt(d0, addrs0, p)
    {
      ChunkByte(sb, d, addrs, rest, e, eddrs, a, off + tot, s, p, f);
      if off + tot <= p < off + tot + m {
        assert s[p - (off + tot)] == src[p - off];
      }
      assert ByteAt(d, addrs, p) == ByteAt(d, addrs, p);
    }
  }

  /** The file blocks a transfer of n bytes at off touches: off / BSIZE to Hi - 1. */
  function Hi(off: nat, n: nat): nat { if n == 0 then off / BSIZE else (off + n - 1) / BSIZE + 1 }

  lemma NextChunk(off: nat, n: nat, m: nat)
    requires n > 0 && m == Min(n, BSIZE - off % BSIZE)
    ensures 0 < m <= n && off % BSIZE + m <= BSIZE && off / BSIZE < Hi(off, n)
    ensures m < n ==> (off + m) / BSIZE == off / BSIZE + 1 && (off + m) % BSIZE == 0
                      && Hi(off + m, n - m) == Hi(off, n) > off / BSIZE + 1
    ensures m == n ==> Hi(off, n) == off / BSIZE + 1
    ensures Hi(off, m) == off / BSIZE + 1
  {
    assert off == BSIZE * (off / BSIZE) + off % BSIZE;
    assert (off + m - 1) / BSIZE == off / BSIZE;
    if m < n {
      assert off + m == BSIZE * (off / BSIZE + 1);
    }
  }

  /** What the whole loop has achieved, as contents: src spliced into c at off. */
  function Spliced(c: seq<byte>, off: nat, src: seq<byte>): (r: seq<byte>)
    requires off <= |c|
    ensures |r| == if off + |src| > |c| then off + |src| else |c|
  {
    c[..off] + src + (if off + |src| < |c| then c[off + |src|..] else [])
  }

  lemma SplicedHolds(d: Disk, addrs: seq<nat>, c: seq<byte>, off: nat, src: seq<byte>, e: Disk, eddrs: seq<nat>)
    requires Holds(d, addrs, c) && off <= |c| && off + |src| <= MAXBYTES
    requires BytesDone(d, addrs, off, src, |src|, e, eddrs)
    ensures Holds(e, eddrs, Spliced(c, off, src))
  {
    var r := Spliced(c, off, src);
    forall p | 0 <= p < |r|
      ensures ByteAt(e, eddrs, p) == Some(r[p])
    {
      if off <= p < off + |src| {
        assert r[p] == src[p - off];
      } else {
        assert r[p] == c[p];
        assert ByteAt(d, addrs, p) == Some(c[p]);
      }
    }
  }

  lemma {:induction false} ContentAt(d: Disk, addrs: seq<nat>, n: nat, p: nat)
    requires |addrs| == NDIRECT + 1 && p < n <= MAXBYTES && ByteAt(d, addrs, p).Some?
    ensures ByteAt(d, addrs, p) == Some(Content(d, addrs, n)[p])
  {
    if p < n - 1 {
      ContentAt(d, addrs, n - 1, p);
    }
  }

  /** Every byte below the size exists. */
  lemma NoHolesHolds(sb: Super, d: Disk, addrs: seq<nat>, rest: set<nat>, size: nat)
    requires Tied(sb, d, addrs, rest) && NoHoles(d, addrs, size)
    ensures Holds(d, addrs, Content(d, addrs, size))
  {
    forall p | 0 <= p < size
      ensures ByteAt(d, addrs, p) == Some(Content(d, addrs, size)[p])
    {
      assert p / BSIZE * BSIZE <= p;
      assert FileBlock(d, addrs, p / BSIZE) != 0;
      ContentAt(d, addrs, size, p);
    }
  }

  lemma HoldsContent(d: Disk, addrs: seq<nat>, c: seq<byte>)
    requires Holds(d, addrs, c)
    ensures Content(d, addrs, |c|) == c
  {
    forall p | 0 <= p < |c|
      ensures Content(d, addrs, |c|)[p] == c[p]
    {
      ContentAt(d, addrs, |c|, p);
    }
  }

  function Max(a: nat, b: nat): nat { if a < b then b else a }

  lemma WriteRange(off: nat, n: nat, bn: nat)
    requires 0 < n
    ensures bn < off / BSIZE ==> bn * BSIZE < off
    ensures bn < Hi(off, n) ==> bn * BSIZE < off + n
    ensures bn >= Hi(off, n) ==> bn * BSIZE >= off + n
  {
    var lo, hi := off / BSIZE, Hi(off, n);
    assert BSIZE * lo <= off < BSIZE * lo + BSIZE && BSIZE * (hi - 1) < off + n <= BSIZE * hi;
    assert bn < hi ==> bn * BSIZE <= BSIZE * (hi - 1);
  }

  /** A write inside or at the end of the file leaves no hole, and no spare block where
      there was none. */
  lemma WriteExact(sb: Super, d: Disk, addrs: seq<nat>, rest: set<nat>, size: nat, off: nat, n: nat,
                   e: Disk, eddrs: seq<nat>)
    requires NoHoles(d, addrs, size) && off <= size && 0 < n && off + n <= MAXBYTES
    requires WriteEffect(sb, d, addrs, rest, off / BSIZE, Hi(off, n), e, eddrs)
    ensures NoHoles(e, eddrs, Max(size, off + n))
    ensures NoSpares(d, addrs, size) ==> NoSpares(e, eddrs, Max(size, off + n))
  {
    var lo, hi := off / BSIZE, Hi(off, n);
    forall bn | 0 <= bn < MAXFILE
      ensures bn * BSIZE < Max(size, off + n) ==> FileBlock(e, eddrs, bn) != 0
      ensures NoSpares(d, addrs, size) && FileBlock(e, eddrs, bn) != 0 ==> bn * BSIZE < Max(size, off + n)
    {
      WriteRange(off, n, bn);
      if !(lo <= bn < hi) {
        assert FileBlock(e, eddrs, bn) == FileBlock(d, addrs, bn);
      }
    }
    WriteRange(off, n, NDIRECT);
  }

  /** A write that does not extend the file allocates nothing: the inode on disk,
      which is then not rewritten, still names the right blocks. */
  lemma NoGrowthSameAddrs(sb: Super, d: Disk, addrs: seq<nat>, rest: set<nat>, size: nat, off: nat, n: nat,
                          e: Disk, eddrs: seq<nat>)
    requires NoHoles(d, addrs, size) && off + n <= size
    requires WriteEffect(sb, d, addrs, rest, off / BSIZE, Hi(off, n), e, eddrs)
    ensures eddrs == addrs
  {
    var lo, hi := off / BSIZE, Hi(off, n);
    forall i | 0 <= i < NDIRECT
      ensures eddrs[i] == addrs[i]
    {
      assert FileBlock(d, addrs, i) == addrs[i] && FileBlock(e, eddrs, i) == eddrs[i];
      if lo <= i < hi {
        assert BSIZE * i <= BSIZE * ((off + n - 1) / BSIZE) <= off + n - 1;
        assert Slot(d, addrs, i) != 0;
      }
    }
    if lo < hi && hi > NDIRECT {
      assert BSIZE * (hi - 1) <= off + n - 1;
      assert FileBlock(d, addrs, hi - 1) != 0;
    }
    if addrs[NDIRECT] != 0 {
      assert Slot(d, addrs, NDIRECT) != 0;
    }
  }

  // ---- how many blocks a write takes ----

  function Zeros(d: Disk, addrs: seq<nat>, lo: nat, hi: nat): nat
    requires |addrs| == NDIRECT + 1 && hi <= MAXFILE
    decreases hi - lo
  {
    if lo >= hi then 0 else (if FileBlock(d, addrs, lo) == 0 then 1 else 0) + Zeros(d, addrs, lo + 1, hi)
  }

  /** The blocks that writing file blocks lo .. hi - 1 has to take. */
  function Need(d: Disk, addrs: seq<nat>, lo: nat, hi: nat): nat
    requires |addrs| == NDIRECT + 1 && hi <= MAXFILE
  {
    Zeros(d, addrs, lo, hi) + if lo < hi && hi > NDIRECT && addrs[NDIRECT] == 0 then 1 else 0
  }

  lemma {:induction false} ZerosSame(d: Disk, addrs: seq<nat>, e: Disk, eddrs: seq<nat>, lo: nat, hi: nat)
    requires |addrs| == |eddrs| == NDIRECT + 1 && hi <= MAXFILE
    requires forall bn | lo <= bn < hi :: FileBlock(e, eddrs, bn) == FileBlock(d, addrs, bn)
    ensures Zeros(e, eddrs, lo, hi) == Zeros(d, addrs, lo, hi)
    decreases hi - lo
  {
    if lo < hi {
      ZerosSame(d, addrs, e, eddrs, lo + 1, hi);
    }
  }

  lemma NeedStep(sb: Super, d: Disk, addrs: seq<nat>, rest: set<nat>, bn: nat, hi: nat, f: Disk, fddrs: seq<nat>)
    requires WriteEffect(sb, d, addrs, rest, bn, bn + 1, f, fddrs) && bn < hi <= MAXFILE
    ensures Need(d, addrs, bn, hi) == Missing(d, addrs, bn) + Need(f, fddrs, bn + 1, hi)
  {
    ZerosSame(d, addrs, f, fddrs, bn + 1, hi);
    if bn >= NDIRECT {
      assert FileBlock(f, fddrs, bn) != 0;
      assert Slot(f, fddrs, NDIRECT) == fddrs[NDIRECT] != 0;
    } else {
      assert fddrs[NDIRECT] == addrs[NDIRECT];
    }
  }

  lemma {:induction false} ZerosBound(d: Disk, addrs: seq<nat>, lo: nat, hi: nat)
    requires |addrs| == NDIRECT + 1 && lo <= hi <= MAXFILE
    ensures Zeros(d, addrs, lo, hi) <= hi - lo
    ensures lo < hi && FileBlock(d, addrs, lo) != 0 ==> Zeros(d, addrs, lo, hi) <= hi - lo - 1
    decreases hi - lo
  {
    if lo < hi {
      ZerosBound(d, addrs, lo + 1, hi);
    }
  }

  /** The bound behind filewrite's chunk size: a write of at most 3 * BSIZE bytes that
      starts inside or at the end of the file touches at most four blocks, and the
      blocks it touches plus the blocks it takes are at most eight. A misaligned first
      block already exists, so only an aligned write takes its first block. */
  lemma ChunkBudget(d: Disk, addrs: seq<nat>, size: nat, off: nat, n: nat)
    requires NoHoles(d, addrs, size) && off <= size && off + n <= MAXBYTES && n <= 3 * BSIZE
    ensures Hi(off, n) <= MAXFILE && off / BSIZE <= Hi(off, n)
    ensures (Hi(off, n) - off / BSIZE) + Need(d, addrs, off / BSIZE, Hi(off, n)) <= 8
  {
    var lo, hi := off / BSIZE, Hi(off, n);
    if n > 0 {
      assert off == BSIZE * lo + off % BSIZE;
      assert hi <= MAXFILE;
      ZerosBound(d, addrs, lo, hi);
      if off % BSIZE != 0 {
        assert lo * BSIZE < size;
        assert FileBlock(d, addrs, lo) != 0;
        assert hi - lo <= 4;
      } else {
        assert hi - lo <= 3;
      }
    }
  }
}
