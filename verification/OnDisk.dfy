/** The blocks of a file system image as they lie on disk (fs.h), and the image read back from them. */
module OnDisk {
  import opened Params
  import B = Blocks
  import opened Bitmap
  import opened Inodes

  const DINODE := 16    // 32-bit words of a struct dinode

  /** A block's bytes as little-endian words. */
  function WordsOf(b: Block): B.Block {
    seq(B.WORDS, j requires 0 <= j < B.WORDS => Word(b, j))
  }

  function ByteOf(w: nat, k: nat): Byte {
    (if k == 0 then w else if k == 1 then w / 0x100 else if k == 2 then w / 0x1_0000 else w / 0x100_0000) % 0x100
  }

  function BytesOf(w: B.Block): Block {
    seq(BSIZE, x requires 0 <= x < BSIZE => ByteOf(w[x / 4], x % 4))
  }

  lemma ByteOfWord(b0: Byte, b1: Byte, b2: Byte, b3: Byte)
    ensures var w: nat := b0 as nat + 0x100 * b1 + 0x1_0000 * b2 + 0x100_0000 * b3;
      ByteOf(w, 0) == b0 && ByteOf(w, 1) == b1 && ByteOf(w, 2) == b2 && ByteOf(w, 3) == b3
  {
    var w: nat := b0 as nat + 0x100 * b1 + 0x1_0000 * b2 + 0x100_0000 * b3;
    assert w / 0x100 == b1 as nat + 0x100 * b2 + 0x1_0000 * b3;
    assert w / 0x1_0000 == b2 as nat + 0x100 * b3;
    assert w / 0x100_0000 == b3;
  }

  lemma BytesOfWords(b: Block)
    ensures BytesOf(WordsOf(b)) == b
  {
    forall x | 0 <= x < BSIZE ensures BytesOf(WordsOf(b))[x] == b[x] {
      var j := x / 4;
      ByteOfWord(b[4 * j], b[4 * j + 1], b[4 * j + 2], b[4 * j + 3]);
      assert x == 4 * j + x % 4;
    }
  }

  /** struct dinode: two words the model does not use, the size, and the addresses. */
  function InodeWords(x: Inode): (w: seq<nat>)
    requires |x.addrs| == NDIRECT + 1
    ensures |w| == DINODE
  {
    [0, 0, x.size] + x.addrs
  }

  /** Word j of the k-th inode block; inodes past the last are zero. */
  function InodeWord(m: Image, k: nat, j: nat): nat
    requires Wellformed(m)
  {
    var i := k * IPB + j / DINODE;
    if i < |m.inodes| then InodeWords(m.inodes[i])[j % DINODE] else 0
  }

  /** Byte x of the k-th block of the bitmap; past its end, zero. */
  function BitmapByte(m: Image, k: nat, x: nat): Byte {
    if k * BSIZE + x < |m.bitmap| then m.bitmap[k * BSIZE + x] as nat else 0
  }

  /** The k-th block of inodes. */
  function InodeBlockWords(m: Image, k: nat): B.Block
    requires Wellformed(m)
  {
    seq(B.WORDS, j requires 0 <= j < B.WORDS => InodeWord(m, k, j))
  }

  /** The k-th block of the bitmap. */
  function BitmapBytes(m: Image, k: nat): Block {
    seq(BSIZE, x requires 0 <= x < BSIZE => BitmapByte(m, k, x))
  }

  /** Block n of the disk. */
  function DiskBlock(m: Image, lay: Layout, n: nat): B.Block
    requires Wellformed(m) && n < |m.blocks|
  {
    if HoldsInodes(m, lay, n) then
      InodeBlockWords(m, n - lay.inodestart)
    else if HoldsBitmap(m, lay, n) then
      WordsOf(BitmapBytes(m, n - lay.bmapstart))
    else WordsOf(m.blocks[n])
  }

  function ToDisk(m: Image, lay: Layout): (d: B.Disk)
    requires Wellformed(m)
    ensures |d| == |m.blocks|
  {
    seq(|m.blocks|, n requires 0 <= n < |m.blocks| => DiskBlock(m, lay, n))
  }

  /** The parts of the disk are apart and on it: log, inodes, bitmap, data in this order. */
  predicate LaidOut(m: Image, lay: Layout, start: nat) {
    && start + LOGBLOCKS < lay.inodestart
    && lay.inodestart + (|m.inodes| + IPB - 1) / IPB <= lay.bmapstart
    && lay.bmapstart + (|m.bitmap| + BSIZE - 1) / BSIZE <= lay.first
    && lay.first <= |m.blocks|
  }

  lemma PartsApart(m: Image, lay: Layout, start: nat, n: nat)
    requires LaidOut(m, lay, start)
    ensures HoldsInodes(m, lay, n) ==> start + LOGBLOCKS < n < lay.bmapstart
    ensures HoldsBitmap(m, lay, n) ==> start + LOGBLOCKS < n < lay.first && !HoldsInodes(m, lay, n)
    ensures lay.first <= n ==> !HoldsBitmap(m, lay, n) && !HoldsInodes(m, lay, n) && start + LOGBLOCKS < n
  {
  }

  /** A block that covers no change is the same on both disks. */
  lemma UnloggedSame(m: Image, t: Image, lay: Layout, logged: set<nat>, n: nat)
    requires Wellformed(m) && Wellformed(t) && Covered(m, t, lay, logged) && n !in logged && n < |m.blocks|
    ensures DiskBlock(m, lay, n) == DiskBlock(t, lay, n)
  {
    if HoldsInodes(m, lay, n) {
      SameInodeBlock(m, t, lay, logged, n);
    } else if HoldsBitmap(m, lay, n) {
      SameBitmapBlock(m, t, lay, logged, n);
    }
  }

  lemma SameInodeBlock(m: Image, t: Image, lay: Layout, logged: set<nat>, n: nat)
    requires Wellformed(m) && Wellformed(t) && Covered(m, t, lay, logged) && n !in logged && lay.inodestart <= n
    ensures InodeBlockWords(m, n - lay.inodestart) == InodeBlockWords(t, n - lay.inodestart)
  {
    var k := n - lay.inodestart;
    forall j | 0 <= j < B.WORDS ensures InodeWord(m, k, j) == InodeWord(t, k, j) {
      var i := k * IPB + j / DINODE;
      assert i < |m.inodes| ==> InodeBlock(lay, i) == n;
    }
  }

  lemma SameBitmapBlock(m: Image, t: Image, lay: Layout, logged: set<nat>, n: nat)
    requires Covered(m, t, lay, logged) && n !in logged && lay.bmapstart <= n
    ensures BitmapBytes(m, n - lay.bmapstart) == BitmapBytes(t, n - lay.bmapstart)
  {
    var k := n - lay.bmapstart;
    forall x | 0 <= x < BSIZE ensures BitmapByte(m, k, x) == BitmapByte(t, k, x) {
      assert BitmapBlock(lay, k * BSIZE + x) == n;
    }
  }

  // Reading back.

  function ReadInode(d: B.Disk, lay: Layout, i: nat): (x: Inode)
    ensures |x.addrs| == NDIRECT + 1
  {
    var n := InodeBlock(lay, i);
    if n < |d| then
      var at := i % IPB * DINODE;
      Inode(d[n][at + 2], d[n][at + 3..at + DINODE])
    else Inode(0, seq(NDIRECT + 1, k => 0))
  }

  function ReadBitmap(d: B.Disk, lay: Layout, x: nat): bv8 {
    var n := BitmapBlock(lay, x);
    if n < |d| then (BytesOf(d[n])[x % BSIZE] as nat) as bv8 else 0
  }

  /** The image of a disk with that many inodes and bytes of bitmap. */
  function FromDisk(d: B.Disk, lay: Layout, inodes: nat, bitmap: nat): Image {
    Image(seq(bitmap, x requires 0 <= x < bitmap => ReadBitmap(d, lay, x)),
          seq(|d|, n requires 0 <= n < |d| => BytesOf(d[n])),
          seq(inodes, i requires 0 <= i < inodes => ReadInode(d, lay, i)))
  }

  /** Equal in everything the file system uses. */
  ghost predicate Alike(m: Image, t: Image, lay: Layout) {
    && t.bitmap == m.bitmap && t.inodes == m.inodes && |t.blocks| == |m.blocks|
    && forall n :: lay.first <= n < |m.blocks| ==> t.blocks[n] == m.blocks[n]
  }

  /** d has the image's blocks everywhere outside the log. */
  ghost predicate Holds(d: B.Disk, m: Image, lay: Layout, start: nat) {
    && Wellformed(m) && |d| == |m.blocks|
    && forall n :: start + LOGBLOCKS < n < |d| ==> d[n] == DiskBlock(m, lay, n)
  }

  lemma InodeReadsBack(d: B.Disk, m: Image, lay: Layout, start: nat, i: nat)
    requires Holds(d, m, lay, start) && LaidOut(m, lay, start) && i < |m.inodes|
    ensures ReadInode(d, lay, i) == m.inodes[i]
  {
    hide WordsOf, BitmapBytes, InodeBlockWords, InodeWords;
    var n := InodeBlock(lay, i);
    PartsApart(m, lay, start, n);
    assert d[n] == InodeBlockWords(m, i / IPB);
    InodeAt(m, i);
  }

  lemma InodeAt(m: Image, i: nat)
    requires Wellformed(m) && i < |m.inodes|
    ensures var at, b := i % IPB * DINODE, InodeBlockWords(m, i / IPB);
      b[at + 2] == m.inodes[i].size && b[at + 3..at + DINODE] == m.inodes[i].addrs
  {
    hide InodeWord;
    var at, b, w := i % IPB * DINODE, InodeBlockWords(m, i / IPB), InodeWords(m.inodes[i]);
    forall j: nat | j < DINODE ensures b[at + j] == w[j] {
      InodeWordAt(m, i, j);
    }
    assert b[at + 2] == w[2];
    assert b[at + 3..at + DINODE] == w[3..] == m.inodes[i].addrs;
  }

  lemma InodeWordAt(m: Image, i: nat, j: nat)
    requires Wellformed(m) && i < |m.inodes| && j < DINODE
    ensures InodeWord(m, i / IPB, i % IPB * DINODE + j) == InodeWords(m.inodes[i])[j]
  {
    hide Wellformed, InodeWords;
    InBlock(i % IPB, j);
    assert i / IPB * IPB + i % IPB == i;
  }

  lemma InBlock(r: nat, j: nat)
    requires j < DINODE
    ensures (r * DINODE + j) / DINODE == r && (r * DINODE + j) % DINODE == j
  {
  }

  lemma BitmapReadsBack(d: B.Disk, m: Image, lay: Layout, start: nat, x: nat)
    requires Holds(d, m, lay, start) && LaidOut(m, lay, start) && x < |m.bitmap|
    ensures ReadBitmap(d, lay, x) == m.bitmap[x]
  {
    hide WordsOf, BytesOf, Wellformed;
    var n := BitmapBlock(lay, x);
    PartsApart(m, lay, start, n);
    BytesOfWords(BitmapBytes(m, n - lay.bmapstart));
    assert d[n] == WordsOf(BitmapBytes(m, n - lay.bmapstart));
    BitmapByteAt(m, lay, x);
    ByteRoundTrip(m.bitmap[x]);
  }

  lemma BitmapByteAt(m: Image, lay: Layout, x: nat)
    requires x < |m.bitmap|
    ensures BitmapBytes(m, BitmapBlock(lay, x) - lay.bmapstart)[x % BSIZE] == m.bitmap[x] as nat
  {
    assert x / BSIZE * BSIZE + x % BSIZE == x;
  }

  lemma ByteRoundTrip(b: bv8)
    ensures (b as nat) as bv8 == b
  {
  }

  /** The image read back from its own disk is the image, log and metadata blocks aside. */
  lemma ReadsBack(d: B.Disk, m: Image, lay: Layout, start: nat)
    requires Holds(d, m, lay, start) && LaidOut(m, lay, start)
    ensures Alike(m, FromDisk(d, lay, |m.inodes|, |m.bitmap|), lay)
  {
    var t := FromDisk(d, lay, |m.inodes|, |m.bitmap|);
    forall i | 0 <= i < |m.inodes| ensures t.inodes[i] == m.inodes[i] {
      InodeReadsBack(d, m, lay, start, i);
    }
    forall x | 0 <= x < |m.bitmap| ensures t.bitmap[x] == m.bitmap[x] {
      BitmapReadsBack(d, m, lay, start, x);
    }
    forall n | lay.first <= n < |m.blocks| ensures t.blocks[n] == m.blocks[n] {
      PartsApart(m, lay, start, n);
      BytesOfWords(m.blocks[n]);
    }
  }

  /** Images that are alike have the same slots, hence the same soundness and the same files. */
  lemma AlikeSlots(m: Image, t: Image, lay: Layout, own: Owners, i: nat, k: nat)
    requires Tree(m, lay, own) && Alike(m, t, lay) && i < |m.inodes| && k < NSLOT
    ensures Wellformed(t) && Slot(t, i, k) == Slot(m, i, k)
  {
    assert Slot(m, i, NDIRECT) != 0 ==> Slot(m, i, NDIRECT) in own;
  }

  lemma AlikeSound(m: Image, t: Image, lay: Layout, own: Owners)
    requires Tree(m, lay, own) && Marked(m, lay, own, {}) && Alike(m, t, lay)
    ensures Tree(t, lay, own) && Marked(t, lay, own, {})
  {
    forall i: nat, k: nat | i < |m.inodes| && k < NSLOT ensures Wellformed(t) && Slot(t, i, k) == Slot(m, i, k) {
      AlikeSlots(m, t, lay, own, i, k);
    }
  }

  lemma AlikeFiles(m: Image, t: Image, lay: Layout, own: Owners, i: nat)
    requires Tree(m, lay, own) && Alike(m, t, lay) && i < |m.inodes| && Mapped(m, i)
    ensures Wellformed(t) && Mapped(t, i) && Contents(t, i) == Contents(m, i)
  {
    forall bn: nat | bn < MAXFILE ensures FileBlock(t, i, bn) == FileBlock(m, i, bn) {
      AlikeSlots(m, t, lay, own, i, Nth(bn));
    }
    forall x: nat | x < m.inodes[i].size ensures ByteAt(t, i, x) == ByteAt(m, i, x) {
      assert FileBlock(m, i, x / BSIZE) != 0;
      assert Slot(m, i, Nth(x / BSIZE)) in own;
    }
  }

  /** Every slot's block is its own and marked, and every file has the blocks below its size. */
  ghost predicate Sound(m: Image, lay: Layout) {
    && (exists own :: Tree(m, lay, own) && Marked(m, lay, own, {}))
    && Wellformed(m) && forall i: nat :: i < |m.inodes| ==> Mapped(m, i)
  }

  /** The file system on disk d is sound and its files read as in m. */
  ghost predicate ReadsAs(d: B.Disk, m: Image, lay: Layout) {
    var r := FromDisk(d, lay, |m.inodes|, |m.bitmap|);
    && Sound(r, lay) && Wellformed(m) && |r.inodes| == |m.inodes|
    && forall i: nat :: i < |m.inodes| ==> Contents(r, i) == Contents(m, i)
  }

  lemma SoundReadsBack(d: B.Disk, m: Image, lay: Layout, start: nat)
    requires Holds(d, m, lay, start) && LaidOut(m, lay, start) && Sound(m, lay)
    ensures ReadsAs(d, m, lay)
  {
    hide FromDisk, Holds, LaidOut, Tree, Marked, Alike, Mapped, Contents;
    ReadsBack(d, m, lay, start);
    var r := FromDisk(d, lay, |m.inodes|, |m.bitmap|);
    var own :| Tree(m, lay, own) && Marked(m, lay, own, {});
    AlikeSound(m, r, lay, own);
    AlikeSizes(m, r, lay);
    forall i: nat | i < |m.inodes| ensures Wellformed(r) && Mapped(r, i) && Contents(r, i) == Contents(m, i) {
      AlikeFiles(m, r, lay, own, i);
    }
    WellformedAlike(m, r, lay, own);
  }

  lemma AlikeSizes(m: Image, t: Image, lay: Layout)
    requires Alike(m, t, lay)
    ensures |t.inodes| == |m.inodes|
  {
  }

  lemma WellformedAlike(m: Image, t: Image, lay: Layout, own: Owners)
    requires Tree(m, lay, own) && Alike(m, t, lay)
    ensures Wellformed(t)
  {
  }

  /** Word j of a block: four bytes, the least significant first. */
  lemma WordsOfAt(b: Block, j: nat)
    requires j < 256
    ensures WordsOf(b)[j] == Entry(b, j)
  {
    WordIsEntry(b, j);
  }

  /** Sixteen inodes of sixteen words in a block, the size in the third word and the addresses after it. */
  lemma InodeFormat(d: B.Disk, m: Image, lay: Layout, start: nat, i: nat)
    requires Holds(d, m, lay, start) && LaidOut(m, lay, start) && i < |m.inodes|
    ensures var n, at := lay.inodestart + i / 16, 16 * (i % 16);
      n < |d| && d[n][at + 2] == m.inodes[i].size && d[n][at + 3..at + 16] == m.inodes[i].addrs
  {
    InodeReadsBack(d, m, lay, start, i);
    InodeInRange(m, lay, start, i);
  }

  /** 8192 bits of the bitmap in a block, eight in a byte. */
  lemma BitmapFormat(d: B.Disk, m: Image, lay: Layout, start: nat, b: nat)
    requires Holds(d, m, lay, start) && LaidOut(m, lay, start) && b < 8 * |m.bitmap|
    ensures var n := lay.bmapstart + b / 8192;
      n < |d| && (Used(m.bitmap, b) <==> (BytesOf(d[n])[b / 8 % 1024] as bv8 >> (b % 8)) & 1 == 1)
  {
    hide BytesOf, Used;
    BitmapReadsBack(d, m, lay, start, b / 8);
    BitOfBlock(m.bitmap, b);
    BitmapBlockHolds(m, lay, b / 8);
    PartsApart(m, lay, start, BitmapBlock(lay, b / 8));
    assert b / 8 / 1024 == b / 8192;
  }

  /** Data blocks in their places, as words of four bytes. */
  lemma DataFormat(d: B.Disk, m: Image, lay: Layout, start: nat, n: nat, j: nat)
    requires Holds(d, m, lay, start) && LaidOut(m, lay, start) && lay.first <= n < |d| && j < 256
    ensures d[n][j] == Entry(m.blocks[n], j)
  {
    PartsApart(m, lay, start, n);
    WordsOfAt(m.blocks[n], j);
  }

  lemma InodeInRange(m: Image, lay: Layout, start: nat, i: nat)
    requires LaidOut(m, lay, start) && i < |m.inodes|
    ensures InodeBlock(lay, i) < |m.blocks|
  {
    InodeBlockHolds(m, lay, i);
    PartsApart(m, lay, start, InodeBlock(lay, i));
  }
}
