/** Files as byte sequences: what one block's worth of writing does, and how the rounds add up. */
module FileBytes {
  import opened Params
  import opened Bitmap
  import opened Inodes

  const MAXBYTES: nat := MAXFILE * BSIZE

  /** d over block b from lo on: the memmove of writei. */
  function Patch(b: Block, lo: nat, d: seq<Byte>): Block
    requires lo + |d| <= BSIZE
  {
    b[..lo] + d + b[lo + |d|..]
  }

  /** From m0 to m, the bytes d arrived in file i at off, and no other byte of a mapped block changed. */
  ghost predicate Wrote(m0: Image, m: Image, i: nat, off: nat, d: seq<Byte>) {
    && Wellformed(m0) && Wellformed(m) && |m.inodes| == |m0.inodes| && i < |m.inodes| && off + |d| <= MAXBYTES
    && (forall j :: 0 <= j < |m.inodes| ==> m.inodes[j].size == m0.inodes[j].size)
    && (forall j :: 0 <= j < |m.inodes| && j != i ==> m.inodes[j] == m0.inodes[j])
    && (forall j: nat, bn: nat :: j < |m.inodes| && bn < MAXFILE && FileBlock(m0, j, bn) != 0 ==>
      FileBlock(m, j, bn) != 0)
    && (forall j: nat, x: nat ::
          (j < |m.inodes| && x < MAXBYTES && FileBlock(m0, j, x / BSIZE) != 0 && !(j == i && off <= x < off + |d|)) ==>
          ByteAt(m, j, x) == ByteAt(m0, j, x))
    && (forall x: nat :: off <= x < off + |d| ==> FileBlock(m, i, x / BSIZE) != 0 && ByteAt(m, i, x) == d[x - off])
  }

  /** One round after another. */
  lemma WroteTrans(m0: Image, m1: Image, m2: Image, i: nat, off: nat, d: seq<Byte>, e: seq<Byte>)
    requires Wrote(m0, m1, i, off, d) && Wrote(m1, m2, i, off + |d|, e)
    ensures Wrote(m0, m2, i, off, d + e)
  {
    hide ByteAt, FileBlock;
  }

  lemma GrowsWrote(m: Image, t: Image, lay: Layout, own: Owners, i: nat, ks: set<nat>, off: nat)
    requires Grows(m, t, own, i, ks) && Tree(m, lay, own) && i < |m.inodes| && off <= MAXBYTES
    ensures Wrote(m, t, i, off, [])
  {
    forall j: nat, x: nat | j < |m.inodes| && x < MAXBYTES && FileBlock(m, j, x / BSIZE) != 0
      ensures ByteAt(t, j, x) == ByteAt(m, j, x)
    {
      assert own[Slot(m, j, Nth(x / BSIZE))] == (j, Nth(x / BSIZE));
    }
    forall j: nat | j < |m.inodes| && j != i ensures t.inodes[j] == m.inodes[j] {
      OtherInode(m, t, own, i, ks, j);
    }
  }

  lemma OtherInode(m: Image, t: Image, own: Owners, i: nat, ks: set<nat>, j: nat)
    requires Grows(m, t, own, i, ks) && j < |m.inodes| && j != i
    ensures t.inodes[j] == m.inodes[j]
  {
    forall l | 0 <= l < NDIRECT + 1 ensures t.inodes[j].addrs[l] == m.inodes[j].addrs[l] {
      assert Slot(t, j, l) == Slot(m, j, l);
    }
  }

  /** Writing within the block of position off. */
  lemma PatchWrote(m: Image, lay: Layout, own: Owners, i: nat, off: nat, e: seq<Byte>)
    requires Tree(m, lay, own) && Marked(m, lay, own, {}) && i < |m.inodes|
    requires off + |e| <= MAXBYTES && off < MAXBYTES && off % BSIZE + |e| <= BSIZE
    requires FileBlock(m, i, off / BSIZE) != 0
    ensures FileBlock(m, i, off / BSIZE) < |m.blocks|
    ensures var b := FileBlock(m, i, off / BSIZE);
      var t := m.(blocks := m.blocks[b := Patch(m.blocks[b], off % BSIZE, e)]);
      && Tree(t, lay, own) && Marked(t, lay, own, {}) && Wrote(m, t, i, off, e)
      && Slot(t, i, NDIRECT) == Slot(m, i, NDIRECT)
  {
    var bn := off / BSIZE;
    var b := FileBlock(m, i, bn);
    assert own[Slot(m, i, Nth(bn))] == (i, Nth(bn));
    var t := m.(blocks := m.blocks[b := Patch(m.blocks[b], off % BSIZE, e)]);
    SameSlots(m, lay, own, b, Patch(m.blocks[b], off % BSIZE, e), m.bitmap);
    assert t == m.(blocks := m.blocks[b := Patch(m.blocks[b], off % BSIZE, e)], bitmap := m.bitmap);
    PatchBytes(m, t, lay, own, i, off, e);
  }

  lemma PatchBytes(m: Image, t: Image, lay: Layout, own: Owners, i: nat, off: nat, e: seq<Byte>)
    requires Tree(m, lay, own) && i < |m.inodes|
    requires off + |e| <= MAXBYTES && off < MAXBYTES && off % BSIZE + |e| <= BSIZE
    requires FileBlock(m, i, off / BSIZE) != 0 && FileBlock(m, i, off / BSIZE) < |m.blocks|
    requires var b := FileBlock(m, i, off / BSIZE); t == m.(blocks := m.blocks[b := Patch(m.blocks[b], off % BSIZE, e)])
    requires forall j: nat, k: nat :: j < |m.inodes| && k < NSLOT ==> Slot(t, j, k) == Slot(m, j, k)
    ensures Wrote(m, t, i, off, e)
  {
    var bn := off / BSIZE;
    var b := FileBlock(m, i, bn);
    assert own[Slot(m, i, Nth(bn))] == (i, Nth(bn));
    forall j: nat, x: nat | j < |m.inodes| && x < MAXBYTES && FileBlock(m, j, x / BSIZE) != 0
      && !(j == i && off <= x < off + |e|) ensures ByteAt(t, j, x) == ByteAt(m, j, x)
    {
      var c := FileBlock(m, j, x / BSIZE);
      assert own[Slot(m, j, Nth(x / BSIZE))] == (j, Nth(x / BSIZE));
      if c == b { SameBlock(off, x); }
    }
    forall x: nat | off <= x < off + |e| ensures FileBlock(t, i, x / BSIZE) != 0 && ByteAt(t, i, x) == e[x - off] {
      SameBlock(off, x);
    }
  }

  lemma SameBlock(off: nat, x: nat)
    ensures x / BSIZE == off / BSIZE ==> x % BSIZE - off % BSIZE == x - off
    ensures off <= x < off + BSIZE - off % BSIZE ==> x / BSIZE == off / BSIZE
  {
  }

  /** The size update at the end of writei turns what was written into the spliced file. */
  lemma WroteDone(m0: Image, m: Image, i: nat, off: nat, d: seq<Byte>)
    requires Wrote(m0, m, i, off, d) && off <= m0.inodes[i].size
    requires forall j: nat :: j < |m0.inodes| ==> Mapped(m0, j)
    ensures var t := WithSize(m, i, Max(m.inodes[i].size, off + |d|));
      && (forall j: nat :: j < |t.inodes| ==> Mapped(t, j))
      && Contents(t, i) == Splice(Contents(m0, i), off, d)
      && forall j: nat :: j < |t.inodes| && j != i ==> Contents(t, j) == Contents(m0, j)
  {
    var t := WithSize(m, i, Max(m.inodes[i].size, off + |d|));
    assert forall j: nat, k: nat :: j < |m.inodes| && k < NSLOT ==> Slot(t, j, k) == Slot(m, j, k);
    forall j: nat | j < |t.inodes| ensures Mapped(t, j) { DoneMapped(m0, m, t, i, off, d, j); }
    DoneHere(m0, m, t, i, off, d);
    forall j: nat | j < |t.inodes| && j != i
      ensures Contents(t, j) == Contents(m0, j) { DoneThere(m0, m, t, i, off, d, j); }
  }

  ghost predicate Resized(m0: Image, m: Image, t: Image, i: nat, off: nat, d: seq<Byte>) {
    && Wrote(m0, m, i, off, d) && off <= m0.inodes[i].size
    && (forall j: nat :: j < |m0.inodes| ==> Mapped(m0, j))
    && t == WithSize(m, i, Max(m.inodes[i].size, off + |d|))
    && Wellformed(t)
    && forall j: nat, k: nat :: j < |m.inodes| && k < NSLOT ==> Slot(t, j, k) == Slot(m, j, k)
  }

  lemma DoneMapped(m0: Image, m: Image, t: Image, i: nat, off: nat, d: seq<Byte>, j: nat)
    requires Resized(m0, m, t, i, off, d) && j < |m.inodes|
    ensures Mapped(t, j)
  {
    assert Mapped(m0, j);
    forall bn: nat | bn < MAXFILE && bn * BSIZE < t.inodes[j].size ensures FileBlock(t, j, bn) != 0 {
      if bn * BSIZE < m0.inodes[j].size {
        assert FileBlock(m0, j, bn) != 0;
      } else {
        assert FileBlock(m, i, bn * BSIZE / BSIZE) != 0;
      }
    }
  }

  lemma DoneHere(m0: Image, m: Image, t: Image, i: nat, off: nat, d: seq<Byte>)
    requires Resized(m0, m, t, i, off, d)
    ensures Contents(t, i) == Splice(Contents(m0, i), off, d)
  {
    assert Mapped(m0, i);
    var r := Splice(Contents(m0, i), off, d);
    var c := Contents(m0, i);
    forall x: nat | x < t.inodes[i].size ensures ByteAt(t, i, x) == r[x] {
      assert ByteAt(t, i, x) == ByteAt(m, i, x);
      if x < off {
        assert FileBlock(m0, i, x / BSIZE) != 0 && r[x] == c[x];
      } else if x < off + |d| {
        assert r[x] == d[x - off];
      } else {
        assert FileBlock(m0, i, x / BSIZE) != 0 && r[x] == c[off + |d|..][x - off - |d|];
      }
    }
  }

  lemma DoneThere(m0: Image, m: Image, t: Image, i: nat, off: nat, d: seq<Byte>, j: nat)
    requires Resized(m0, m, t, i, off, d) && j < |m.inodes| && j != i
    ensures Contents(t, j) == Contents(m0, j)
  {
    assert Mapped(m0, j);
    forall x: nat | x < t.inodes[j].size ensures ByteAt(t, j, x) == ByteAt(m0, j, x) {
      assert FileBlock(m0, j, x / BSIZE) != 0;
    }
  }

  /** How many blocks of a file n bytes from off on touch. */
  function Touched(off: nat, n: nat): nat { (off % BSIZE + n + BSIZE - 1) / BSIZE }

  /**
   Blocks one writei may log: the inode; the indirect block and its bitmap
   block; each touched block; and a bitmap block for each touched block that
   may be new, which an unaligned first one is not.
   */
  function LogCost(off: nat, n: nat): nat {
    3 + 2 * Touched(off, n) - (if off % BSIZE != 0 && n > 0 then 1 else 0)
  }

  /** filewrite's chunk. */
  const CHUNK: nat := (MAXOPBLOCKS - 1 - 1 - 2) / 2 * BSIZE

  /** A chunk always fits an operation's share of the log, with nothing to spare when it is unaligned. */
  lemma ChunkFits(off: nat, n: nat)
    requires n <= CHUNK
    ensures CHUNK == 3 * BSIZE && LogCost(off, n) <= MAXOPBLOCKS
    ensures off % BSIZE != 0 && n == CHUNK ==> LogCost(off, n) == MAXOPBLOCKS
  {
  }

  /** A chunk one block longer would not fit. */
  lemma LongerChunkDoesNot(off: nat)
    ensures LogCost(off, CHUNK + BSIZE) > MAXOPBLOCKS
  {
  }

  lemma UnionBound(a: set<nat>, b: set<nat>)
    ensures |a + b| <= |a| + |b|
  {
    assert a + b == a + (b - a) && |b - a| <= |b| by {
      assert |b| == |b - a| + |b * a| by { assert b == (b - a) + (b * a); } }
  }

  lemma SubsetBound(a: set<nat>, b: set<nat>)
    requires a <= b
    ensures |a| <= |b|
  {
    assert b == a + (b - a);
  }

  /** What readi copies out of one block is that stretch of the file. */
  lemma Piece(m: Image, i: nat, pos: nat, k: nat)
    requires Wellformed(m) && i < |m.inodes| && pos + k <= m.inodes[i].size && k <= BSIZE - pos % BSIZE
      && pos + k <= MAXBYTES
    requires pos < MAXBYTES && FileBlock(m, i, pos / BSIZE) < |m.blocks|
    ensures m.blocks[FileBlock(m, i, pos / BSIZE)][pos % BSIZE..pos % BSIZE + k] == Contents(m, i)[pos..pos + k]
  {
    hide FileBlock;
    var b := m.blocks[FileBlock(m, i, pos / BSIZE)];
    var file := Contents(m, i);
    var l, r := b[pos % BSIZE..pos % BSIZE + k], file[pos..pos + k];
    assert |l| == |r|;
    forall x: nat | x < |l| ensures l[x] == r[x] {
      SameBlock(pos, pos + x);
      assert r[x] == file[pos + x] == ByteAt(m, i, pos + x);
    }
  }
}
