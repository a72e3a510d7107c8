/**
 Inodes and their blocks (fs.c, fs.h): twelve direct addresses, one indirect
 block of 256 little-endian words, and the bitmap.
 */
module Inodes {
  import opened Params
  import opened Bitmap

  const NDIRECT: nat := 12
  const NINDIRECT: nat := 256
  const MAXFILE: nat := NDIRECT + NINDIRECT
  const BPB: nat := 8 * BSIZE
  const IPB: nat := BSIZE / 64

  /** An inode names blocks by slot: 0..11 direct, 12 the indirect block, 13..268 its entries. */
  const NSLOT: nat := NDIRECT + 1 + NINDIRECT

  type Block = s: seq<Byte> | |s| == BSIZE witness seq(BSIZE, i => 0)

  const ZERO: Block := seq(BSIZE, i => 0)

  datatype Inode = Inode(size: nat, addrs: seq<nat>)

  /** What the file system reads and writes: bitmap, blocks and inodes. */
  datatype Image = Image(bitmap: seq<bv8>, blocks: seq<Block>, inodes: seq<Inode>)

  /** first: the first data block; everything before it is boot, log, inode and bitmap blocks. */
  datatype Layout = Layout(first: nat, bmapstart: nat, inodestart: nat)

  function Word(b: Block, j: nat): nat
    requires j < NINDIRECT
  {
    var b0: nat, b1: nat, b2: nat, b3: nat := b[4 * j], b[4 * j + 1], b[4 * j + 2], b[4 * j + 3];
    b0 + 0x100 * b1 + 0x1_0000 * b2 + 0x100_0000 * b3
  }

  function SetWord(b: Block, j: nat, v: nat): Block
    requires j < NINDIRECT && v < 0x1_0000_0000
  {
    var b2 := b[4 * j := v % 0x100][4 * j + 1 := v / 0x100 % 0x100];
    b2[4 * j + 2 := v / 0x1_0000 % 0x100][4 * j + 3 := v / 0x100_0000]
  }

  lemma WordOfSet(b: Block, j: nat, v: nat, k: nat)
    requires j < NINDIRECT && k < NINDIRECT && v < 0x1_0000_0000
    ensures Word(SetWord(b, j, v), k) == if k == j then v else Word(b, k)
  {
    if k == j {
      Bytes(v);
    } else {
      OtherWord(b, j, v, k);
    }
  }

  lemma Bytes(v: nat)
    requires v < 0x1_0000_0000
    ensures v == v % 0x100 + 0x100 * (v / 0x100 % 0x100)
                 + 0x1_0000 * (v / 0x1_0000 % 0x100) + 0x100_0000 * (v / 0x100_0000)
  {
    var x, y, z := v / 0x100, v / 0x1_0000, v / 0x100_0000;
    assert v == 0x100 * x + v % 0x100;
    assert x / 0x100 == y && x == 0x100 * y + x % 0x100;
    assert y / 0x100 == z && y == 0x100 * z + y % 0x100;
  }

  lemma OtherWord(b: Block, j: nat, v: nat, k: nat)
    requires j < NINDIRECT && k < NINDIRECT && v < 0x1_0000_0000 && k != j
    ensures Word(SetWord(b, j, v), k) == Word(b, k)
  {
    assert 4 * k + 3 < 4 * j || 4 * j + 3 < 4 * k;
  }

  predicate Wellformed(m: Image) {
    && |m.blocks| <= 8 * |m.bitmap| && |m.blocks| < 0x1_0000_0000
    && forall i :: 0 <= i < |m.inodes| ==> |m.inodes[i].addrs| == NDIRECT + 1
  }

  /** The block number in slot k of inode i, 0 for none. */
  function Slot(m: Image, i: nat, k: nat): nat
    requires Wellformed(m) && i < |m.inodes| && k < NSLOT
  {
    if k <= NDIRECT then m.inodes[i].addrs[k]
    else
      var a := m.inodes[i].addrs[NDIRECT];
      if a == 0 || a >= |m.blocks| then 0 else Word(m.blocks[a], k - NDIRECT - 1)
  }

  type Owners = map<nat, (nat, nat)>

  predicate InData(m: Image, lay: Layout, b: nat) { 0 < lay.first <= b < |m.blocks| }

  /** Every block number found in a slot is that slot's alone, and a data block. */
  ghost predicate Tree(m: Image, lay: Layout, own: Owners) {
    && Wellformed(m)
    && (forall i: nat, k: nat :: i < |m.inodes| && k < NSLOT && Slot(m, i, k) != 0 ==>
          Slot(m, i, k) in own && own[Slot(m, i, k)] == (i, k))
    && (forall b :: b in own ==>
      InData(m, lay, b) && own[b].0 < |m.inodes| && own[b].1 < NSLOT && Slot(m, own[b].0, own[b].1) == b)
  }

  /** The bitmap marks the metadata, the blocks in slots, and the loose blocks; nothing else. */
  ghost predicate Marked(m: Image, lay: Layout, own: Owners, loose: set<nat>) {
    && 0 < lay.first
    && (forall b: nat :: b < |m.blocks| ==> (Used(m.bitmap, b) <==> b < lay.first || b in own || b in loose))
    && (forall b :: b in loose ==> InData(m, lay, b) && b !in own)
  }

  /** A block number found in two slots is found in the same one, and its bit is set. */
  lemma OwnedOnce(m: Image, lay: Layout, own: Owners, i: nat, k: nat, j: nat, l: nat)
    requires Tree(m, lay, own) && Marked(m, lay, own, {}) && i < |m.inodes| && k < NSLOT && j < |m.inodes| && l < NSLOT
    requires Slot(m, i, k) == Slot(m, j, l) != 0
    ensures i == j && k == l && Used(m.bitmap, Slot(m, i, k)) && InData(m, lay, Slot(m, i, k))
  {
    assert own[Slot(m, i, k)] == (i, k);
  }

  /** Block b may change without any slot changing. */
  predicate NotIndirect(own: Owners, b: nat) { b in own ==> own[b].1 != NDIRECT }

  lemma SameSlots(m: Image, lay: Layout, own: Owners, b: nat, c: Block, bits: seq<bv8>)
    requires Tree(m, lay, own) && b < |m.blocks| && NotIndirect(own, b) && |m.blocks| <= 8 * |bits|
    ensures var t := m.(blocks := m.blocks[b := c], bitmap := bits);
      Tree(t, lay, own) && forall i: nat, k: nat :: i < |m.inodes| && k < NSLOT ==> Slot(t, i, k) == Slot(m, i, k)
  {
    var t := m.(blocks := m.blocks[b := c], bitmap := bits);
    forall i: nat, k: nat | i < |m.inodes| && k < NSLOT ensures Slot(t, i, k) == Slot(m, i, k) {
      assert Slot(m, i, NDIRECT) == m.inodes[i].addrs[NDIRECT];
    }
  }

  /** An empty slot of the inode itself takes a block nobody has. */
  lemma SetAddr(m: Image, lay: Layout, own: Owners, i: nat, k: nat, b: nat)
    requires Tree(m, lay, own) && i < |m.inodes| && k <= NDIRECT && Slot(m, i, k) == 0
    requires b !in own && InData(m, lay, b) && (k == NDIRECT ==> m.blocks[b] == ZERO)
    ensures var t := WithAddr(m, i, k, b);
      && Tree(t, lay, own[b := (i, k)])
      && forall j: nat, l: nat :: j < |m.inodes| && l < NSLOT ==>
        Slot(t, j, l) == if (j, l) == (i, k) then b else Slot(m, j, l)
  {
    var t := WithAddr(m, i, k, b);
    forall j: nat, l: nat | j < |m.inodes| && l < NSLOT
      ensures Slot(t, j, l) == if (j, l) == (i, k) then b else Slot(m, j, l)
    {
      assert Slot(m, i, NDIRECT) == m.inodes[i].addrs[NDIRECT];
    }
  }

  function WithAddr(m: Image, i: nat, k: nat, b: nat): Image
    requires Wellformed(m) && i < |m.inodes| && k <= NDIRECT
  {
    m.(inodes := m.inodes[i := m.inodes[i].(addrs := m.inodes[i].addrs[k := b])])
  }

  function WithEntry(m: Image, a: nat, j: nat, b: nat): Image
    requires a < |m.blocks| && j < NINDIRECT && b < 0x1_0000_0000
  {
    m.(blocks := m.blocks[a := SetWord(m.blocks[a], j, b)])
  }

  /** An empty entry of the indirect block takes a block nobody has. */
  lemma SetEntry(m: Image, lay: Layout, own: Owners, i: nat, j: nat, b: nat)
    requires Tree(m, lay, own) && i < |m.inodes| && j < NINDIRECT
    requires Slot(m, i, NDIRECT) != 0 && Slot(m, i, NDIRECT) < |m.blocks| && Slot(m, i, NDIRECT + 1 + j) == 0
    requires b !in own && InData(m, lay, b)
    ensures var t := WithEntry(m, Slot(m, i, NDIRECT), j, b);
      && Tree(t, lay, own[b := (i, NDIRECT + 1 + j)])
      && forall p: nat, l: nat :: p < |m.inodes| && l < NSLOT ==>
           Slot(t, p, l) == if (p, l) == (i, NDIRECT + 1 + j) then b else Slot(m, p, l)
  {
    var a := Slot(m, i, NDIRECT);
    var t := WithEntry(m, a, j, b);
    forall p: nat, l: nat | p < |m.inodes| && l < NSLOT
      ensures Slot(t, p, l) == if (p, l) == (i, NDIRECT + 1 + j) then b else Slot(m, p, l)
    {
      assert Slot(m, p, NDIRECT) == m.inodes[p].addrs[NDIRECT];
      if l > NDIRECT { WordOfSet(m.blocks[a], j, b, l - NDIRECT - 1); }
    }
  }

  function WithSize(m: Image, i: nat, size: nat): Image
    requires i < |m.inodes|
  {
    m.(inodes := m.inodes[i := m.inodes[i].(size := size)])
  }

  lemma SizeKeeps(m: Image, lay: Layout, own: Owners, i: nat, size: nat)
    requires Tree(m, lay, own) && Marked(m, lay, own, {}) && i < |m.inodes|
    ensures var t := WithSize(m, i, size);
      && Tree(t, lay, own) && Marked(t, lay, own, {})
      && forall j: nat, k: nat :: j < |m.inodes| && k < NSLOT ==> Slot(t, j, k) == Slot(m, j, k)
  {
    var t := WithSize(m, i, size);
    assert forall j: nat, k: nat :: j < |m.inodes| && k < NSLOT ==> Slot(t, j, k) == Slot(m, j, k);
  }

  /** The slot of block bn of a file. */
  function Nth(bn: nat): nat { if bn < NDIRECT then bn else bn + 1 }

  function FileBlock(m: Image, i: nat, bn: nat): nat
    requires Wellformed(m) && i < |m.inodes| && bn < MAXFILE
  {
    Slot(m, i, Nth(bn))
  }

  /** Every block below the file's size has been allocated. */
  ghost predicate Mapped(m: Image, i: nat)
    requires Wellformed(m) && i < |m.inodes|
  {
    && m.inodes[i].size <= MAXFILE * BSIZE
    && forall bn: nat :: bn < MAXFILE && bn * BSIZE < m.inodes[i].size ==> FileBlock(m, i, bn) != 0
  }

  function ByteAt(m: Image, i: nat, x: nat): Byte
    requires Wellformed(m) && i < |m.inodes|
  {
    var b := if x < MAXFILE * BSIZE then FileBlock(m, i, x / BSIZE) else 0;
    if b < |m.blocks| then m.blocks[b][x % BSIZE] else 0
  }

  /** The file as a sequence of bytes. */
  function Contents(m: Image, i: nat): (s: seq<Byte>)
    requires Wellformed(m) && i < |m.inodes|
  {
    seq(m.inodes[i].size, x requires 0 <= x < m.inodes[i].size => ByteAt(m, i, x))
  }

  /** s with d written over it from position off on, growing it if d reaches past its end. */
  function Splice(s: seq<Byte>, off: nat, d: seq<Byte>): seq<Byte>
    requires off <= |s|
  {
    s[..off] + d + (if off + |d| < |s| then s[off + |d|..] else [])
  }

  ghost predicate Submap(a: Owners, b: Owners) {
    forall x :: x in a ==> x in b && b[x] == a[x]
  }

  /**
   From m to t only empty slots of inode i, all in ks, were filled; no block
   that held data under own changed, and no file changed its size.
   */
  ghost predicate Grows(m: Image, t: Image, own: Owners, i: nat, ks: set<nat>) {
    && Wellformed(m) && Wellformed(t) && |t.blocks| == |m.blocks| && |t.inodes| == |m.inodes|
    && (forall j :: 0 <= j < |m.inodes| ==> t.inodes[j].size == m.inodes[j].size)
    && (forall j: nat, l: nat :: j < |m.inodes| && l < NSLOT && Slot(t, j, l) != Slot(m, j, l) ==>
          j == i && l in ks && Slot(m, j, l) == 0)
    && (forall b :: b in own && own[b].1 != NDIRECT && b < |m.blocks| ==> t.blocks[b] == m.blocks[b])
  }

  lemma GrowsTrans(m: Image, u: Image, t: Image, own: Owners, own1: Owners, i: nat, ks: set<nat>, ls: set<nat>)
    requires Grows(m, u, own, i, ks) && Grows(u, t, own1, i, ls) && Submap(own, own1)
    ensures Grows(m, t, own, i, ks + ls)
  {
  }

  lemma GrowsMore(m: Image, t: Image, own: Owners, i: nat, ks: set<nat>, ls: set<nat>)
    requires Grows(m, t, own, i, ks) && ks <= ls
    ensures Grows(m, t, own, i, ls)
  {
  }

  lemma SubmapTrans(a: Owners, b: Owners, c: Owners)
    requires Submap(a, b) && Submap(b, c)
    ensures Submap(a, c)
  {
  }

  /** Filling empty slots shows in no file. */
  lemma GrowsContents(m: Image, t: Image, lay: Layout, own: Owners, i: nat, ks: set<nat>, j: nat)
    requires Grows(m, t, own, i, ks) && Tree(m, lay, own) && j < |m.inodes| && Mapped(m, j)
    ensures Mapped(t, j) && Contents(t, j) == Contents(m, j)
  {
    forall x: nat | x < m.inodes[j].size ensures ByteAt(t, j, x) == ByteAt(m, j, x) {
      var bn := x / BSIZE;
      assert FileBlock(m, j, bn) != 0;
      assert own[Slot(m, j, Nth(bn))] == (j, Nth(bn));
    }
    forall bn: nat | bn < MAXFILE && bn * BSIZE < t.inodes[j].size ensures FileBlock(t, j, bn) != 0 {
      assert FileBlock(m, j, bn) != 0;
    }
  }

  // Where the image lies on disk.

  /** The block that holds byte x of the bitmap. */
  function BitmapBlock(lay: Layout, x: nat): nat { x / BSIZE + lay.bmapstart }

  /** The block that holds inode i. */
  function InodeBlock(lay: Layout, i: nat): nat { i / IPB + lay.inodestart }

  predicate HoldsInodes(m: Image, lay: Layout, n: nat) {
    lay.inodestart <= n && (n - lay.inodestart) * IPB < |m.inodes|
  }

  predicate HoldsBitmap(m: Image, lay: Layout, n: nat) {
    lay.bmapstart <= n && (n - lay.bmapstart) * BSIZE < |m.bitmap|
  }

  /** Everything in which t differs from m lies in a logged block, and only blocks of the image are logged. */
  ghost predicate Covered(m: Image, t: Image, lay: Layout, logged: set<nat>) {
    && (forall n :: n in logged ==> InData(m, lay, n) || HoldsInodes(m, lay, n) || HoldsBitmap(m, lay, n))
    && |t.bitmap| == |m.bitmap| && |t.blocks| == |m.blocks| && |t.inodes| == |m.inodes|
    && (forall n :: 0 <= n < |m.blocks| && t.blocks[n] != m.blocks[n] ==> n in logged)
    && (forall x :: 0 <= x < |m.bitmap| && t.bitmap[x] != m.bitmap[x] ==> BitmapBlock(lay, x) in logged)
    && (forall i :: 0 <= i < |m.inodes| && t.inodes[i] != m.inodes[i] ==> InodeBlock(lay, i) in logged)
  }

  lemma CoverBlock(m: Image, t: Image, lay: Layout, logged: set<nat>, n: nat, b: Block)
    requires Covered(m, t, lay, logged) && InData(t, lay, n)
    ensures Covered(m, t.(blocks := t.blocks[n := b]), lay, logged + {n})
  {
  }

  lemma CoverBitmap(m: Image, t: Image, lay: Layout, logged: set<nat>, x: nat, b: bv8)
    requires Covered(m, t, lay, logged) && x < |t.bitmap|
    ensures Covered(m, t.(bitmap := t.bitmap[x := b]), lay, logged + {BitmapBlock(lay, x)})
  {
    hide BitmapBlock, InodeBlock, HoldsBitmap, HoldsInodes;
    BitmapBlockHolds(m, lay, x);
  }

  lemma CoverInode(m: Image, t: Image, lay: Layout, logged: set<nat>, i: nat, x: Inode)
    requires Covered(m, t, lay, logged) && i < |t.inodes|
    ensures Covered(m, t.(inodes := t.inodes[i := x]), lay, logged + {InodeBlock(lay, i)})
  {
    hide BitmapBlock, InodeBlock, HoldsBitmap, HoldsInodes;
    InodeBlockHolds(m, lay, i);
  }

  lemma BitmapBlockHolds(m: Image, lay: Layout, x: nat)
    ensures x < |m.bitmap| ==> HoldsBitmap(m, lay, BitmapBlock(lay, x))
  {
  }

  lemma InodeBlockHolds(m: Image, lay: Layout, i: nat)
    ensures i < |m.inodes| ==> HoldsInodes(m, lay, InodeBlock(lay, i))
  {
  }

  // Which block of the disk holds which bytes, by the raw addresses.

  /** Entry j of an indirect block: four bytes, the least significant first. */
  function Entry(b: Block, j: nat): nat
    requires j < 256
  {
    var b0: nat, b1: nat, b2: nat, b3: nat := b[4 * j], b[4 * j + 1], b[4 * j + 2], b[4 * j + 3];
    b0 + 256 * (b1 + 256 * (b2 + 256 * b3))
  }

  /**
   Block bn of file i is disk block n, 0 for none: the first twelve are named by
   the inode, the others by the block that its thirteenth address names.
   */
  predicate Points(m: Image, i: nat, bn: nat, n: nat) {
    && i < |m.inodes| && |m.inodes[i].addrs| == 13
    && (bn < 12 ==> n == m.inodes[i].addrs[bn])
    && (12 <= bn < 268 ==>
          var ind := m.inodes[i].addrs[12];
          if ind == 0 then n == 0 else ind < |m.blocks| && n == Entry(m.blocks[ind], bn - 12))
  }

  lemma WordIsEntry(b: Block, j: nat)
    requires j < 256
    ensures Word(b, j) == Entry(b, j)
  {
  }

  lemma SlotPoints(m: Image, lay: Layout, own: Owners, i: nat, bn: nat)
    requires Tree(m, lay, own) && i < |m.inodes| && bn < MAXFILE
    ensures Points(m, i, bn, FileBlock(m, i, bn))
  {
    hide Word, Entry;
    if bn >= 12 && m.inodes[i].addrs[12] != 0 {
      assert Slot(m, i, 12) in own;
      WordIsEntry(m.blocks[m.inodes[i].addrs[12]], bn - 12);
    }
  }

  /** Byte x of a file is byte x % 1024 of the block its addresses give for x / 1024. */
  lemma ByteIsOnDisk(m: Image, lay: Layout, own: Owners, i: nat, x: nat)
    requires Tree(m, lay, own) && i < |m.inodes| && Mapped(m, i) && x < m.inodes[i].size
    ensures |Contents(m, i)| == m.inodes[i].size && |m.inodes[i].addrs| == 13 && x / 1024 < 268
    ensures x < 12 * 1024 ==>
      var n := m.inodes[i].addrs[x / 1024];
      0 < n < |m.blocks| && Contents(m, i)[x] == m.blocks[n][x % 1024]
    ensures x >= 12 * 1024 ==>
      var ind := m.inodes[i].addrs[12];
      && 0 < ind < |m.blocks|
      && var n := Entry(m.blocks[ind], x / 1024 - 12);
         0 < n < |m.blocks| && Contents(m, i)[x] == m.blocks[n][x % 1024]
  {
    hide Word, Entry;
    var bn := x / 1024;
    assert FileBlock(m, i, bn) != 0;
    assert Slot(m, i, Nth(bn)) in own;
    SlotPoints(m, lay, own, i, bn);
  }

  /** Byte x of file i is c, by the raw addresses. */
  ghost predicate StoredAt(m: Image, i: nat, x: nat, c: Byte) {
    exists n: nat :: 0 < n < |m.blocks| && Points(m, i, x / 1024, n) && m.blocks[n][x % 1024] == c
  }

  ghost predicate Stores(m: Image, i: nat, off: nat, d: seq<Byte>) {
    forall k :: 0 <= k < |d| ==> StoredAt(m, i, off + k, d[k])
  }

  lemma ByteStored(m: Image, lay: Layout, own: Owners, i: nat, x: nat)
    requires Tree(m, lay, own) && i < |m.inodes| && Mapped(m, i) && x < m.inodes[i].size
    ensures |Contents(m, i)| == m.inodes[i].size && StoredAt(m, i, x, Contents(m, i)[x])
  {
    hide Tree, Mapped, Entry, Contents;
    ByteIsOnDisk(m, lay, own, i, x);
    var ind := m.inodes[i].addrs[12];
    var n := if x < 12 * 1024 then m.inodes[i].addrs[x / 1024] else Entry(m.blocks[ind], x / 1024 - 12);
    assert Points(m, i, x / 1024, n);
  }

  lemma SliceStored(m: Image, lay: Layout, own: Owners, i: nat, off: nat, d: seq<Byte>)
    requires Tree(m, lay, own) && i < |m.inodes| && Mapped(m, i) && Wellformed(m)
    requires off + |d| <= |Contents(m, i)| == m.inodes[i].size && d == Contents(m, i)[off..off + |d|]
    ensures Stores(m, i, off, d)
  {
    hide Tree, Mapped, Contents, StoredAt;
    forall k | 0 <= k < |d| ensures StoredAt(m, i, off + k, d[k]) {
      ByteStored(m, lay, own, i, off + k);
    }
  }

  /** A splice, byte by byte. */
  lemma SpliceAt(s: seq<Byte>, off: nat, d: seq<Byte>, x: nat)
    requires off <= |s| && (x < |s| || x < off + |d|)
    ensures |Splice(s, off, d)| == if off + |d| < |s| then |s| else off + |d|
    ensures Splice(s, off, d)[x] == if off <= x < off + |d| then d[x - off] else s[x]
  {
    if off + |d| <= x {
      assert s[off + |d|..][x - off - |d|] == s[x];
    }
  }
}
