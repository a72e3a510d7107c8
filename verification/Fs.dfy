/** balloc, bfree, bmap, itrunc, readi and writei (fs.c), updating the image in place. */
module Fs {
  import opened Params
  import opened Bitmap
  import opened Inodes
  import opened Truncate
  import opened FileBytes
  import opened LogBudget

  lemma BitPlace(b: nat, bi: nat)
    requires b % BPB == 0 && bi < BPB
    ensures (b + bi) / 8 == b / BPB * BSIZE + bi / 8 && (b + bi) % 8 == bi % 8 && (b + bi) / BPB == b / BPB
  {
    var q := b / BPB;
    assert b == q * BPB;
    assert (b + bi) / 8 == q * BSIZE + bi / 8;
  }

  lemma BitTest(bitmap: seq<bv8>, b: nat, bi: nat)
    requires b % BPB == 0 && bi < BPB && b + bi < 8 * |bitmap|
    ensures b / BPB * BSIZE + bi / 8 < |bitmap|
    ensures bitmap[b / BPB * BSIZE + bi / 8] & Mask(bi % 8) == 0 <==> !Used(bitmap, b + bi)
  {
    hide Mask;
    BitPlace(b, bi);
  }

  lemma BytePlace(b: nat)
    ensures b / BPB * BSIZE + b % BPB / 8 == b / 8 && b % BPB % 8 == b % 8
  {
    BitPlace(b / BPB * BPB, b % BPB);
  }

  class FileSystem {
    const lay: Layout
    var bitmap: seq<bv8>
    var blocks: seq<Block>
    var inodes: seq<Inode>
    ghost var own: Owners
    ghost var loose: set<nat>
    var logged: set<nat>         // the blocks log_write has seen in this operation
    ghost var peak: nat          // the most it had seen when it was called
    ghost var began: Image       // the disk as the operation found it
    ghost var synced: seq<Inode> // the inodes on disk, as iupdate last left them

    /** A mounted disk whose image is sound and whose files have every block below their size. */
    constructor (m: Image, layout: Layout, ghost owners: Owners)
      requires Tree(m, layout, owners) && Marked(m, layout, owners, {})
      requires forall j: nat :: j < |m.inodes| ==> Mapped(m, j)
      ensures AllMapped() && Img() == m && lay == layout && own == owners && logged == {} && peak == 0 && began == m
    {
      lay := layout;
      bitmap, blocks, inodes := m.bitmap, m.blocks, m.inodes;
      own, loose, logged, peak, began, synced := owners, {}, {}, 0, m, m.inodes;
    }

    function Img(): Image
      reads this
    {
      Image(bitmap, blocks, inodes)
    }

    ghost predicate Valid()
      reads this
    {
      Tree(Img(), lay, own) && Marked(Img(), lay, own, loose) && Logs()
    }

    /** What the operation has changed on disk it has logged. */
    ghost predicate Logs()
      reads this
    {
      peak <= |logged| && |synced| == |inodes| && Covered(began, Image(bitmap, blocks, synced), lay, logged)
    }

    /** log_write of block b. */
    method LogWrite(b: nat)
      modifies this`logged, this`peak
      ensures logged == old(logged) + {b} && peak == Max(old(peak), |old(logged)|)
      ensures old(peak) <= |old(logged)| ==> peak <= |logged|
    {
      SubsetBound(logged, logged + {b});
      peak := Max(peak, |logged|);
      logged := logged + {b};
    }

    /** A byte of the bitmap changes in its buffer, and log_write. */
    method SetByte(x: nat, v: bv8)
      requires x < |bitmap| && Logs()
      modifies this`bitmap, this`logged, this`peak
      ensures Logs() && bitmap == old(bitmap)[x := v] && logged == old(logged) + {BitmapBlock(lay, x)}
    {
      hide Covered;
      CoverBitmap(began, Image(bitmap, blocks, synced), lay, logged, x, v);
      bitmap := bitmap[x := v];
      LogWrite(BitmapBlock(lay, x));
    }

    /** A block changes in its buffer, and log_write. */
    method SetBlock(n: nat, b: Block)
      requires InData(Img(), lay, n) && Logs()
      modifies this`blocks, this`logged, this`peak
      ensures Logs() && blocks == old(blocks)[n := b] && logged == old(logged) + {n}
    {
      hide Covered;
      CoverBlock(began, Image(bitmap, blocks, synced), lay, logged, n, b);
      blocks := blocks[n := b];
      LogWrite(n);
    }

    /** No block is free. */
    ghost predicate Full()
      reads this
    {
      forall c: nat :: c < |blocks| ==> Used(bitmap, c)
    }

    /** BBLOCK: the bitmap block that holds the bit of block b. */
    function Bblock(b: nat): nat { BitmapBlock(lay, b / 8) }

    /** IBLOCK: the block that holds inode i on disk. */
    function Iblock(i: nat): nat { InodeBlock(lay, i) }

    /** balloc's search: the first unmarked block, over bitmap blocks and the bits in each. */
    method FindFree() returns (found: bool, r: nat)
      requires |blocks| <= 8 * |bitmap|
      ensures found ==> r < |blocks| && !Used(bitmap, r) && forall c: nat :: c < r ==> Used(bitmap, c)
      ensures !found ==> Full()
    {
      hide Used, Mask;
      var b := 0;
      while b < |blocks|
        invariant b % BPB == 0
        invariant forall c: nat :: c < b && c < |blocks| ==> Used(bitmap, c)
      {
        var bi := 0;
        while bi < BPB && b + bi < |blocks|
          invariant 0 <= bi <= BPB
          invariant forall c: nat :: c < b + bi && c < |blocks| ==> Used(bitmap, c)
        {
          BitTest(bitmap, b, bi);
          if bitmap[b / BPB * BSIZE + bi / 8] & Mask(bi % 8) == 0 { return true, b + bi; }
          bi := bi + 1;
        }
        b := b + BPB;
      }
      return false, 0;
    }

    /** The first free block, marked and zeroed; 0 when no block is free. */
    method Balloc() returns (r: nat)
      requires Valid() && loose == {}
      modifies this`bitmap, this`blocks, this`inodes, this`own, this`loose, this`logged, this`peak
      ensures inodes == old(inodes) && own == old(own) && Valid()
      ensures r == 0 ==> Img() == old(Img()) && loose == {} && logged == old(logged)
      ensures r == 0 ==> Full()
      ensures r != 0 ==> InData(Img(), lay, r) && r < |old(blocks)| && r !in own && loose == {r}
      ensures r != 0 ==> blocks == old(blocks)[r := ZERO] && logged == old(logged) + {Bblock(r), r}
      ensures r != 0 ==> !old(Used(bitmap, r)) && forall c: nat :: c < r ==> old(Used(bitmap, c))
    {
      hide Covered, Tree, Marked, Used;
      WellformedNow();
      ghost var m := Img();
      var found, b := FindFree();
      if !found { return 0; }
      AllocKeeps(m, lay, own, b);
      SetByte(b / 8, bitmap[b / 8] | Mask(b % 8));
      SetBlock(b, ZERO);
      loose := {b};
      return b;
    }

    /** Fill an empty slot of the inode: balloc, then ip->addrs[k] = addr. */
    method AllocAddr(i: nat, k: nat) returns (addr: nat)
      requires Valid() && loose == {} && i < |inodes| && k <= NDIRECT && Slot(Img(), i, k) == 0
      modifies this`bitmap, this`blocks, this`inodes, this`own, this`loose, this`logged, this`peak
      ensures Valid() && loose == {} && Grows(old(Img()), Img(), old(own), i, {k}) && Submap(old(own), own)
      ensures addr == Slot(Img(), i, k) && (addr != 0 ==> addr < |blocks|)
      ensures addr == 0 ==> Img() == old(Img()) && logged == old(logged) && Full()
      ensures addr != 0 ==> blocks[addr] == ZERO && logged == old(logged) + {Bblock(addr), addr}
    {
      ghost var m := Img();
      addr := Balloc();
      ghost var u := Img();
      if addr == 0 { return; }
      AddrStep(m, u, lay, own, i, k, addr);
      hide Covered, Tree, Marked, Grows, Submap, Used;
      inodes := inodes[i := inodes[i].(addrs := inodes[i].addrs[k := addr])];
      own := own[addr := (i, k)];
      loose := {};
    }

    /** The address in slot k of the inode, allocated if it is empty. */
    method MapAddr(i: nat, k: nat) returns (addr: nat)
      requires Valid() && loose == {} && i < |inodes| && k <= NDIRECT
      modifies this`bitmap, this`blocks, this`inodes, this`own, this`loose, this`logged, this`peak
      ensures Valid() && loose == {} && Grows(old(Img()), Img(), old(own), i, {k}) && Submap(old(own), own)
      ensures addr == Slot(Img(), i, k) && (addr != 0 ==> addr < |blocks|)
      ensures Slot(Img(), i, NDIRECT) == if k == NDIRECT then addr else old(Slot(Img(), i, NDIRECT))
      ensures old(Slot(Img(), i, k)) != 0 ==> Img() == old(Img()) && own == old(own) && logged == old(logged)
      ensures addr == 0 ==> Full()
      ensures addr == 0 ==> Img() == old(Img()) && logged == old(logged)
      ensures logged <= old(logged) + {Bblock(addr), addr}
    {
      addr := inodes[i].addrs[k];
      assert addr == Slot(Img(), i, k);
      if addr == 0 { addr := AllocAddr(i, k); }
    }

    lemma IndirectThere(i: nat)
      requires Valid() && i < |inodes| && Slot(Img(), i, NDIRECT) != 0
      ensures |inodes[i].addrs| == NDIRECT + 1 && Wellformed(Img())
      ensures var a := inodes[i].addrs[NDIRECT];
        a == Slot(Img(), i, NDIRECT) && a in own && InData(Img(), lay, a)
    {
      assert Slot(Img(), i, NDIRECT) in own;
    }

    lemma NothingGrew(i: nat, slots: set<nat>)
      requires Valid() && i < |inodes|
      ensures Grows(Img(), Img(), own, i, slots) && Submap(own, own)
    {
    }

    /** Fill an empty entry of the indirect block: balloc, then a[j] = addr and log_write. */
    method AllocEntry(i: nat, j: nat) returns (addr: nat)
      requires Valid() && loose == {} && i < |inodes| && j < NINDIRECT
      requires Slot(Img(), i, NDIRECT) != 0 && Slot(Img(), i, NDIRECT + 1 + j) == 0
      modifies this`bitmap, this`blocks, this`inodes, this`own, this`loose, this`logged, this`peak
      ensures Valid() && loose == {} && Grows(old(Img()), Img(), old(own), i, {NDIRECT + 1 + j})
        && Submap(old(own), own)
      ensures addr == Slot(Img(), i, NDIRECT + 1 + j) && (addr != 0 ==> addr < |blocks|)
      ensures Slot(Img(), i, NDIRECT) == old(Slot(Img(), i, NDIRECT))
      ensures addr == 0 ==> Img() == old(Img()) && logged == old(logged) && Full()
      ensures addr != 0 ==> logged == old(logged) + {Bblock(addr), addr, Slot(Img(), i, NDIRECT)}
    {
      hide Covered, Tree, Marked, Grows, Submap, Used, Word, Full;
      ghost var m := Img();
      IndirectThere(i);
      NothingGrew(i, {NDIRECT + 1 + j});
      var a := inodes[i].addrs[NDIRECT];
      addr := Balloc();
      ghost var u := Img();
      if addr == 0 { return; }
      EntryStep(m, u, lay, own, i, j, addr);
      SetBlock(a, SetWord(blocks[a], j, addr));
      own := own[addr := (i, NDIRECT + 1 + j)];
      loose := {};
    }

    /** bmap's second half, the indirect block being there: its entry j, allocated if it is empty. */
    method MapEntry(i: nat, j: nat) returns (addr: nat)
      requires Valid() && loose == {} && i < |inodes| && j < NINDIRECT && Slot(Img(), i, NDIRECT) != 0
      modifies this`bitmap, this`blocks, this`inodes, this`own, this`loose, this`logged, this`peak
      ensures Valid() && loose == {} && Grows(old(Img()), Img(), old(own), i, {NDIRECT + 1 + j})
        && Submap(old(own), own)
      ensures addr == Slot(Img(), i, NDIRECT + 1 + j) && (addr != 0 ==> addr < |blocks|)
      ensures Slot(Img(), i, NDIRECT) == old(Slot(Img(), i, NDIRECT))
      ensures old(Slot(Img(), i, NDIRECT + 1 + j)) != 0 ==>
        Img() == old(Img()) && own == old(own) && logged == old(logged)
      ensures addr == 0 ==> Full()
      ensures logged <= old(logged) + {Bblock(addr), addr, Slot(Img(), i, NDIRECT)}
    {
      var a := inodes[i].addrs[NDIRECT];
      assert a == Slot(Img(), i, NDIRECT) && a in own;
      addr := Word(blocks[a], j);
      assert addr == Slot(Img(), i, NDIRECT + 1 + j);
      if addr == 0 { addr := AllocEntry(i, j); }
    }

    /** The block of the file's block bn, allocated if there is none yet; 0 when the disk is full. */
    method Bmap(i: nat, bn: nat) returns (addr: nat)
      requires Valid() && loose == {} && i < |inodes| && bn < MAXFILE
      modifies this`bitmap, this`blocks, this`inodes, this`own, this`loose, this`logged, this`peak
      ensures Valid() && loose == {} && Grows(old(Img()), Img(), old(own), i, {NDIRECT, Nth(bn)})
        && Submap(old(own), own)
      ensures addr == FileBlock(Img(), i, bn) && (addr != 0 ==> addr < |blocks|)
      ensures Points(Img(), i, bn, addr)
      ensures addr == 0 ==> Full()
      ensures old(FileBlock(Img(), i, bn)) != 0 ==> Img() == old(Img()) && own == old(own) && logged == old(logged)
      ensures bn < NDIRECT ==> Slot(Img(), i, NDIRECT) == old(Slot(Img(), i, NDIRECT))
      ensures logged <= old(logged) + {addr, Bblock(addr)}
                + (if bn < NDIRECT then {} else {Slot(Img(), i, NDIRECT)})
                + (if bn < NDIRECT || old(Slot(Img(), i, NDIRECT)) != 0 then {} else {Bblock(Slot(Img(), i, NDIRECT))})
    {
      ghost var m := Img();
      hide Covered, Tree, Marked, Grows, Submap, Used, Word;
      if bn < NDIRECT {
        addr := MapAddr(i, bn);
        GrowsMore(m, Img(), old(own), i, {bn}, {NDIRECT, bn});
        SlotPoints(Img(), lay, own, i, bn);
        return;
      }
      var a := MapAddr(i, NDIRECT);
      ghost var u, own1 := Img(), own;
      if a == 0 {
        GrowsMore(m, u, old(own), i, {NDIRECT}, {NDIRECT, Nth(bn)});
        SlotPoints(Img(), lay, own, i, bn);
        return 0;
      }
      addr := MapEntry(i, bn - NDIRECT);
      GrowsTrans(m, u, Img(), old(own), own1, i, {NDIRECT}, {Nth(bn)});
      assert {NDIRECT} + {Nth(bn)} == {NDIRECT, Nth(bn)};
      SubmapTrans(old(own), own1, own);
      SlotPoints(Img(), lay, own, i, bn);
    }

    /** Clear the bit of b; false is the panic "freeing free block". */
    method Bfree(b: nat) returns (ok: bool)
      requires b < |blocks| <= 8 * |bitmap| && Logs()
      modifies this`bitmap, this`logged, this`peak
      ensures Logs()
      ensures ok <==> old(Used(bitmap, b))
      ensures bitmap == if ok then Unmark(old(bitmap), b) else old(bitmap)
      ensures logged == if ok then old(logged) + {Bblock(b)} else old(logged)
    {
      hide Covered, Logs;
      var bi := b % BPB;
      BytePlace(b);
      var at := b / BPB * BSIZE + bi / 8;
      if bitmap[at] & Mask(bi % 8) == 0 { return false; }
      SetByte(at, bitmap[at] & !Mask(bi % 8));
      return true;
    }

    /** One round of itrunc's first loop: bfree the block in slot k and empty the slot. */
    method FreeAddr(i: nat, k: nat) returns (ok: bool)
      requires Valid() && loose == {} && i < |inodes| && k < NDIRECT
      modifies this`bitmap, this`blocks, this`inodes, this`own, this`loose, this`logged, this`peak
      ensures ok && Valid() && loose == {} && blocks == old(blocks)
      ensures own == if old(inodes[i].addrs[k]) == 0 then old(own) else old(own) - {old(inodes[i].addrs[k])}
      ensures inodes == old(Put(inodes, i, inodes[i].addrs[k := 0]))
    {
      hide Covered, Tree, Marked, Unmark, Used;
      WellformedNow();
      var b := inodes[i].addrs[k];
      ghost var m := Img();
      assert b == Slot(m, i, k);
      if b == 0 {
        assert inodes[i].addrs[k := 0] == inodes[i].addrs;
        return true;
      }
      FreeDirect(m, lay, own, i, k);
      ok := Bfree(b);
      inodes := inodes[i := inodes[i].(addrs := inodes[i].addrs[k := 0])];
      own := own - {b};
    }

    /** itrunc's first loop: direct blocks go, one by one. */
    method FreeDirects(i: nat) returns (ok: bool)
      requires Valid() && loose == {} && i < |inodes|
      modifies this`bitmap, this`blocks, this`inodes, this`own, this`loose, this`logged, this`peak
      ensures ok && Valid() && loose == {} && blocks == old(blocks)
      ensures own == Without(old(own), i, NDIRECT)
      ensures inodes == old(Put(inodes, i, Zeroed(inodes[i].addrs, NDIRECT)))
    {
      ghost var own0, inodes0 := own, inodes;
      var k := 0;
      assert Without(own, i, 0) == own && |inodes0[i].addrs| == NDIRECT + 1;
      assert Zeroed(inodes[i].addrs, 0) == inodes[i].addrs && inodes == Put(inodes, i, inodes[i].addrs);
      hide *;
      while k < NDIRECT
        invariant 0 <= k <= NDIRECT && Valid() && loose == {} && blocks == old(blocks) && own == Without(own0, i, k)
        invariant inodes == Put(inodes0, i, Zeroed(inodes0[i].addrs, k))
      {
        DirectRound(own0, inodes0, i, k);
        ok := FreeAddr(i, k);
        k := k + 1;
      }
      return true;
    }

    lemma DirectRound(own0: Owners, inodes0: seq<Inode>, i: nat, k: nat)
      requires Valid() && i < |inodes0| && k < NDIRECT < |inodes0[i].addrs|
      requires own == Without(own0, i, k) && inodes == Put(inodes0, i, Zeroed(inodes0[i].addrs, k))
      ensures |inodes[i].addrs| > k
      ensures Put(inodes, i, inodes[i].addrs[k := 0]) == Put(inodes0, i, Zeroed(inodes0[i].addrs, k + 1))
      ensures Without(own0, i, k + 1) == if inodes[i].addrs[k] == 0 then own else own - {inodes[i].addrs[k]}
    {
      NextSlot(Img(), lay, own0, i, k, own);
      PutNext(inodes0, i, k);
    }

    /** Between Detach and the end of itrunc: of inode i's indirect part, rest is still to be freed. */
    ghost predicate Draining(m0: Image, own0: Owners, i: nat, rest: set<nat>)
      reads this
    {
      && Tree(m0, lay, own0) && blocks == m0.blocks && inodes == m0.inodes && i < |inodes| && Wellformed(Img())
      && Slot(m0, i, NDIRECT) != 0 && Logs()
      && Tree(WithAddr(Img(), i, NDIRECT, 0), lay, Without(own0, i, NSLOT))
      && Marked(WithAddr(Img(), i, NDIRECT, 0), lay, Without(own0, i, NSLOT), rest)
    }

    /** bfree of a block still to be freed succeeds. */
    method FreeRest(i: nat, b: nat, ghost m0: Image, ghost own0: Owners, ghost rest: set<nat>) returns (ok: bool)
      requires Draining(m0, own0, i, rest) && b in rest
      modifies this`bitmap, this`logged, this`peak
      ensures ok && Draining(m0, own0, i, rest - {b})
    {
      ghost var t := WithAddr(Img(), i, NDIRECT, 0);
      FreeLoose(t, lay, Without(own0, i, NSLOT), rest, b);
      hide Covered, Tree, Marked, Without, Used, Unmark, Slot;
      ok := Bfree(b);
      assert WithAddr(Img(), i, NDIRECT, 0) == t.(bitmap := Unmark(t.bitmap, b));
    }

    lemma StartDrain(i: nat)
      requires Valid() && loose == {} && i < |inodes| && Slot(Img(), i, NDIRECT) != 0
      requires forall b :: b in own && own[b].0 == i ==> own[b].1 >= NDIRECT
      ensures Draining(Img(), own, i, Rest(own, i, 0))
    {
      Detach(Img(), lay, own, i);
    }

    lemma DrainRound(m0: Image, own0: Owners, i: nat, j: nat)
      requires Draining(m0, own0, i, Rest(own0, i, j)) && j < NINDIRECT
      ensures inodes[i].addrs[NDIRECT] < |blocks|
      ensures var w := Word(blocks[inodes[i].addrs[NDIRECT]], j);
        if w == 0 then Rest(own0, i, j) == Rest(own0, i, j + 1)
        else w in Rest(own0, i, j) && Rest(own0, i, j) - {w} == Rest(own0, i, j + 1)
    {
      assert Slot(m0, i, NDIRECT) == inodes[i].addrs[NDIRECT] && Slot(m0, i, NDIRECT) in own0;
      NextEntry(m0, lay, own0, i, j);
    }

    lemma EndDrain(m0: Image, own0: Owners, i: nat)
      requires Draining(m0, own0, i, Rest(own0, i, NINDIRECT))
      ensures inodes[i].addrs[NDIRECT] in Rest(own0, i, NINDIRECT)
      ensures Rest(own0, i, NINDIRECT) - {inodes[i].addrs[NDIRECT]} == {}
    {
      LastIsIndirect(m0, lay, own0, i);
    }

    /** itrunc's second half: the entries' blocks, then the indirect block itself. */
    method FreeIndirect(i: nat) returns (ok: bool)
      requires Valid() && loose == {} && i < |inodes| && Slot(Img(), i, NDIRECT) != 0
      requires forall b :: b in own && own[b].0 == i ==> own[b].1 >= NDIRECT
      modifies this`bitmap, this`blocks, this`inodes, this`own, this`loose, this`logged, this`peak
      ensures ok && Valid() && loose == {} && blocks == old(blocks)
      ensures own == Without(old(own), i, NSLOT)
      ensures inodes == old(Put(inodes, i, inodes[i].addrs[NDIRECT := 0]))
    {
      hide Covered, Tree, Marked, Rest, Without, Slot, Used, Word, Wellformed;
      ghost var m0, own0 := Img(), own;
      StartDrain(i);
      ok := DrainEntries(i, m0, own0);
      SlotCountAt(m0, own0, i, NINDIRECT);
      EndDrain(m0, own0, i);
      ok := FreeRest(i, inodes[i].addrs[NDIRECT], m0, own0, Rest(own0, i, NINDIRECT));
      FinishDrain(m0, own0, i);
      inodes := inodes[i := inodes[i].(addrs := inodes[i].addrs[NDIRECT := 0])];
      own := Without(own0, i, NSLOT);
    }

    /** The loop over the indirect block's entries. */
    method DrainEntries(i: nat, ghost m0: Image, ghost own0: Owners) returns (ok: bool)
      requires Draining(m0, own0, i, Rest(own0, i, 0))
      modifies this`bitmap, this`logged, this`peak
      ensures ok && Draining(m0, own0, i, Rest(own0, i, NINDIRECT))
    {
      hide Rest, Draining;
      ok := true;
      for j := 0 to NINDIRECT
        invariant ok && Draining(m0, own0, i, Rest(own0, i, j))
      {
        ok := DrainEntry(i, j, m0, own0);
      }
    }

    method DrainEntry(i: nat, j: nat, ghost m0: Image, ghost own0: Owners) returns (ok: bool)
      requires Draining(m0, own0, i, Rest(own0, i, j)) && j < NINDIRECT
      modifies this`bitmap, this`logged, this`peak
      ensures ok && Draining(m0, own0, i, Rest(own0, i, j + 1))
    {
      hide Covered, Tree, Marked, Rest, Without, Slot, Used, Word, Wellformed;
      SlotCountAt(m0, own0, i, j);
      DrainRound(m0, own0, i, j);
      var w := Word(blocks[inodes[i].addrs[NDIRECT]], j);
      ok := true;
      if w != 0 { ok := FreeRest(i, w, m0, own0, Rest(own0, i, j)); }
    }

    lemma SlotCountAt(m0: Image, own0: Owners, i: nat, j: nat)
      requires Draining(m0, own0, i, Rest(own0, i, j))
      ensures |inodes[i].addrs| == NDIRECT + 1
    {
    }

    lemma FinishDrain(m0: Image, own0: Owners, i: nat)
      requires Draining(m0, own0, i, {})
      ensures var t := Image(bitmap, blocks, inodes[i := inodes[i].(addrs := inodes[i].addrs[NDIRECT := 0])]);
        Tree(t, lay, Without(own0, i, NSLOT)) && Marked(t, lay, Without(own0, i, NSLOT), {})
    {
    }

    /** Every address of the inode is freed and cleared. */
    method FreeBlocks(i: nat) returns (ok: bool)
      requires Valid() && loose == {} && i < |inodes|
      modifies this`bitmap, this`blocks, this`inodes, this`own, this`loose, this`logged, this`peak
      ensures ok && Valid() && loose == {} && blocks == old(blocks)
      ensures own == Without(old(own), i, NSLOT)
      ensures inodes == old(Put(inodes, i, seq(NDIRECT + 1, k => 0)))
    {
      ghost var own0, inodes0 := own, inodes;
      SlotIs(i);
      ok := FreeDirects(i);
      OnlyIndirectLeft(own0, i);
      AllZero(inodes0, i);
      SlotIs(i);
      hide Covered, Tree, Marked, Without, Slot, Zeroed, Used, Put;
      if inodes[i].addrs[NDIRECT] != 0 {
        ok := FreeIndirect(i);
      } else {
        NothingLeft(Img(), lay, own, i);
      }
    }

    /** The file becomes empty, its blocks and no others become free, and bfree never panics. */
    method Itrunc(i: nat) returns (ok: bool)
      requires Valid() && loose == {} && i < |inodes|
      modifies this`bitmap, this`blocks, this`inodes, this`own, this`loose, this`logged, this`peak, this`synced
      ensures ok && Valid() && loose == {} && blocks == old(blocks)
      ensures inodes == old(inodes)[i := Inode(0, seq(NDIRECT + 1, k => 0))]
      ensures synced == old(synced)[i := inodes[i]]
      ensures own == Without(old(own), i, NSLOT)
      ensures forall b: nat :: b < |blocks| ==>
        (Used(bitmap, b) <==> old(Used(bitmap, b)) && !(b in old(own) && old(own)[b].0 == i))
    {
      ghost var m, own0 := Img(), own;
      ok := FreeBlocks(i);
      FreedExactly(m, Img(), lay, own0, i);
      SizeKeeps(Img(), lay, own, i, 0);
      hide Covered, Tree, Marked, Without, Slot, Used;
      inodes := inodes[i := inodes[i].(size := 0)];
      Iupdate(i);
    }

    /** iupdate: the inode goes into its block. */
    method Iupdate(i: nat)
      requires i < |inodes| && Logs()
      modifies this`synced, this`logged, this`peak
      ensures Logs() && synced == old(synced)[i := inodes[i]]
      ensures logged == old(logged) + {Iblock(i)} && peak == Max(old(peak), |old(logged)|)
    {
      hide Covered;
      CoverInode(began, Image(bitmap, blocks, synced), lay, logged, i, inodes[i]);
      synced := synced[i := inodes[i]];
      LogWrite(Iblock(i));
    }

    lemma SlotIs(i: nat)
      requires Valid() && i < |inodes|
      ensures |inodes[i].addrs| == NDIRECT + 1 && Slot(Img(), i, NDIRECT) == inodes[i].addrs[NDIRECT]
    {
    }

    ghost function Indirect(i: nat): nat
      reads this
    {
      if Wellformed(Img()) && i < |inodes| then Slot(Img(), i, NDIRECT) else 0
    }

    ghost function BlockOf(i: nat, pos: nat): nat
      reads this
    {
      if Wellformed(Img()) && i < |inodes| && pos < MAXBYTES then FileBlock(Img(), i, pos / BSIZE) else 0
    }

    /**
     One round of writei's loop: bmap, then at most a block's worth of bytes.
     d, b and c hold the data, bitmap and indirect blocks it logs.
     */
    method WriteRound(i: nat, pos: nat, rest: seq<Byte>)
      returns (k: nat, ghost d: set<nat>, ghost b: set<nat>, ghost c: set<nat>)
      requires Valid() && loose == {} && i < |inodes| && |rest| > 0 && pos + |rest| <= MAXBYTES
      modifies this`bitmap, this`blocks, this`inodes, this`own, this`loose, this`logged, this`peak
      ensures Valid() && loose == {} && |inodes| == |old(inodes)| && k <= |rest|
      ensures Wrote(old(Img()), Img(), i, pos, rest[..k])
      ensures k == 0 ==> Full()
      ensures RoundLogs(old(logged), logged, pos, |rest|, old(Indirect(i)), Indirect(i), old(BlockOf(i, pos)), k, d,
        b, c)
    {
      hide Covered, Tree, Marked, Grows, Slot, Used, Wrote, Wellformed, MapLogs, Full, BlockOf;
      ghost var m := Img();
      var addr;
      addr, d, b, c := MapRound(i, pos);
      if addr == 0 {
        assert rest[..0] == [];
        return 0, d, b, c;
      }
      k := Min(|rest|, BSIZE - pos % BSIZE);
      PatchRound(m, i, pos, rest[..k]);
      LogAgain(old(logged), logged, pos, old(Indirect(i)), Indirect(i), old(BlockOf(i, pos)), true, addr, b, c);
      SetBlock(addr, Patch(blocks[addr], pos % BSIZE, rest[..k]));
    }

    lemma PatchRound(m: Image, i: nat, pos: nat, e: seq<Byte>)
      requires Valid() && loose == {} && i < |inodes| && Wrote(m, Img(), i, pos, [])
      requires Wellformed(Img()) && pos < MAXBYTES && FileBlock(Img(), i, pos / BSIZE) != 0
      requires pos + |e| <= MAXBYTES && pos % BSIZE + |e| <= BSIZE
      ensures FileBlock(Img(), i, pos / BSIZE) < |blocks|
      ensures var b := FileBlock(Img(), i, pos / BSIZE);
        var t := Image(bitmap, blocks[b := Patch(blocks[b], pos % BSIZE, e)], inodes);
        && Wellformed(t) && Tree(t, lay, own) && Marked(t, lay, own, {}) && Wrote(m, t, i, pos, e)
        && Slot(t, i, NDIRECT) == Slot(Img(), i, NDIRECT)
    {
      PatchWrote(Img(), lay, own, i, pos, e);
      var b := FileBlock(Img(), i, pos / BSIZE);
      WroteTrans(m, Img(), Image(bitmap, blocks[b := Patch(blocks[b], pos % BSIZE, e)], inodes), i, pos, [], e);
      assert [] + e == e;
    }

    lemma WellformedNow()
      requires Valid()
      ensures Wellformed(Img())
    {
    }

    /** The bmap of a round, and what it logs. */
    method MapRound(i: nat, pos: nat) returns (addr: nat, ghost d: set<nat>, ghost b: set<nat>, ghost c: set<nat>)
      requires Valid() && loose == {} && i < |inodes| && pos < MAXBYTES
      modifies this`bitmap, this`blocks, this`inodes, this`own, this`loose, this`logged, this`peak
      ensures Valid() && loose == {} && Wellformed(Img()) && |inodes| == |old(inodes)|
        && Wrote(old(Img()), Img(), i, pos, [])
      ensures addr == FileBlock(Img(), i, pos / BSIZE) && (addr != 0 ==> InData(Img(), lay, addr))
        && (addr == 0 ==> Full())
      ensures d == {addr}
      ensures MapLogs(old(logged), logged, pos, old(Indirect(i)), Indirect(i), old(BlockOf(i, pos)), addr != 0, d, b, c)
    {
      hide Covered, Tree, Marked, Grows, Slot, Used, Wrote, Wellformed, FileBlock, Full;
      ghost var m, own0 := Img(), own;
      WellformedNow();
      var bn := pos / BSIZE;
      addr := Bmap(i, bn);
      GrowsWrote(m, Img(), lay, own0, i, {NDIRECT, Nth(bn)}, pos);
      MapFacts(m, Img(), own0, i, bn);
      FileBlockInData(i, bn);
      d := {addr};
      b, c := RoundSets(m, Img(), i, bn, addr);
    }

    lemma FileBlockInData(i: nat, bn: nat)
      requires Valid() && i < |inodes| && bn < MAXFILE
      ensures Wellformed(Img()) && (FileBlock(Img(), i, bn) != 0 ==> InData(Img(), lay, FileBlock(Img(), i, bn)))
    {
      assert FileBlock(Img(), i, bn) != 0 ==> Slot(Img(), i, Nth(bn)) in own;
    }

    /** The bitmap and indirect blocks bmap logged on the way from m to u. */
    ghost method RoundSets(m: Image, u: Image, i: nat, bn: nat, addr: nat) returns (b: set<nat>, c: set<nat>)
      requires Wellformed(m) && Wellformed(u) && i < |m.inodes| == |u.inodes| && bn < MAXFILE
      ensures FileBlock(m, i, bn) == 0 ==>
        b == {Bblock(addr)} + (if bn < NDIRECT || Slot(m, i, NDIRECT) != 0 then {} else {Bblock(Slot(u, i, NDIRECT))})
        && c == (if bn < NDIRECT then {} else {Slot(u, i, NDIRECT)})
      ensures FileBlock(m, i, bn) != 0 ==> b == {} && c == {}
      ensures |b| <= (if FileBlock(m, i, bn) == 0 then 1 else 0) + (if bn < NDIRECT
        || Slot(m, i, NDIRECT) != 0 then 0 else 1)
    {
      if FileBlock(m, i, bn) != 0 { return {}, {}; }
      b := {Bblock(addr)};
      if bn >= NDIRECT && Slot(m, i, NDIRECT) == 0 { b := b + {Bblock(Slot(u, i, NDIRECT))}; }
      c := if bn < NDIRECT then {} else {Slot(u, i, NDIRECT)};
    }

    /** Every block below a file's size is there. */
    ghost predicate AllMapped()
      reads this
    {
      Valid() && loose == {} && synced == inodes && forall j: nat :: j < |inodes| ==> Mapped(Img(), j)
    }

    /** The state of writei's loop after tot bytes: m is the image and base the log at its start, s the account. */
    ghost predicate Writing(m: Image, base: set<nat>, s: Account, i: nat, off: nat, tot: nat, data: seq<Byte>)
      reads this
    {
      && Valid() && loose == {} && |inodes| == |m.inodes| && i < |m.inodes| && tot <= |data| && off + |data| <= MAXBYTES
      && Wellformed(m) && Mapped(m, i) && off <= m.inodes[i].size
      && Wrote(m, Img(), i, off, data[..tot])
      && Within(s, base, logged, off, tot, |data|, Indirect(i))
    }

    lemma StartWriting(i: nat, off: nat, data: seq<Byte>)
      requires AllMapped() && i < |inodes| && off <= inodes[i].size && off + |data| <= MAXBYTES
      ensures Writing(Img(), logged, Account(0, false, {}, {}, {}), i, off, 0, data)
    {
      WroteNothing(Img(), i, off);
      assert data[..0] == [] && logged == logged + {} + {} + {};
    }

    /** The account after a round of writei's loop. */
    method WriteStep(i: nat, off: nat, tot: nat, data: seq<Byte>, ghost m: Image, ghost base: set<nat>,
                     ghost s: Account)
      returns (k: nat, ghost s1: Account)
      requires Writing(m, base, s, i, off, tot, data) && tot < |data|
      modifies this`bitmap, this`blocks, this`inodes, this`own, this`loose, this`logged, this`peak
      ensures Valid() && loose == {} && tot + k <= |data| && Wrote(m, Img(), i, off, data[..tot + k])
      ensures Counted(s1, base, logged, off, |data|)
      ensures k == 0 ==> Full()
      ensures k > 0 ==> Writing(m, base, s1, i, off, tot + k, data)
    {
      hide *;
      ghost var u, l0, ind0, old0 := Img(), logged, Indirect(i), BlockOf(i, off + tot);
      BeforeStep(m, base, s, i, off, tot, data);
      ghost var d, b, c;
      k, d, b, c := WriteRound(i, off + tot, data[tot..]);
      s1 := After(s, off + tot, ind0, d, b, c);
      AfterStep(m, u, base, l0, s, i, off, tot, data, ind0, old0, k, d, b, c);
    }

    lemma BeforeStep(m: Image, base: set<nat>, s: Account, i: nat, off: nat, tot: nat, data: seq<Byte>)
      requires Writing(m, base, s, i, off, tot, data) && tot < |data|
      ensures Valid() && loose == {} && i < |inodes| == |m.inodes| && off + tot + |data[tot..]| <= MAXBYTES
        && |data[tot..]| > 0
      ensures Wellformed(m) && Mapped(m, i) && off <= m.inodes[i].size && off + |data| <= MAXBYTES
      ensures Wrote(m, Img(), i, off, data[..tot]) && Within(s, base, logged, off, tot, |data|, Indirect(i))
      ensures Unaligned(off) && tot == 0 ==> BlockOf(i, off + tot) != 0
    {
      hide Covered, Tree, Marked, Wrote, Within, Wellformed, FileBlock, Mapped;
      FirstRound(m, i, off, data[..tot]);
    }

    lemma AfterStep(m: Image, u: Image, base: set<nat>, l0: set<nat>, s: Account, i: nat, off: nat, tot: nat,
                    data: seq<Byte>, ind0: nat, old0: nat, k: nat, d: set<nat>, b: set<nat>, c: set<nat>)
      requires Valid() && loose == {} && i < |inodes| == |m.inodes| && tot < |data|
      requires Wellformed(m) && Mapped(m, i) && off <= m.inodes[i].size && off + |data| <= MAXBYTES
      requires Wrote(m, u, i, off, data[..tot]) && k <= |data[tot..]| && Wrote(u, Img(), i, off + tot, data[tot..][..k])
      requires Within(s, base, l0, off, tot, |data|, ind0) && (Unaligned(off) && tot == 0 ==> old0 != 0)
      requires RoundLogs(l0, logged, off + tot, |data[tot..]|, ind0, Indirect(i), old0, k, d, b, c)
      ensures tot + k <= |data| && Wrote(m, Img(), i, off, data[..tot + k])
      ensures var s1 := After(s, off + tot, ind0, d, b, c);
        && Counted(s1, base, logged, off, |data|)
        && (k > 0 ==> Writing(m, base, s1, i, off, tot + k, data))
    {
      hide Covered, Tree, Marked, Wrote, Slot, FileBlock, Within, Mapped, RoundLogs, Wellformed, Indirect, After,
        Counted;
      RoundKeeps(s, base, l0, logged, off, tot, |data|, ind0, Indirect(i), old0, k, d, b, c);
      WroteTrans(m, u, Img(), i, off, data[..tot], data[tot..][..k]);
      assert data[..tot] + data[tot..][..k] == data[..tot + k];
    }

    /** writei's loop, before the size update. */
    method WriteBytes(i: nat, off: nat, data: seq<Byte>) returns (tot: nat)
      requires AllMapped() && i < |inodes| && off <= inodes[i].size && off + |data| <= MAXBYTES
      modifies this`bitmap, this`blocks, this`inodes, this`own, this`loose, this`logged, this`peak
      ensures Valid() && loose == {} && tot <= |data| && Wrote(old(Img()), Img(), i, off, data[..tot])
      ensures tot < |data| ==> Full()
      ensures |logged| < |old(logged)| + LogCost(off, |data|)
    {
      hide *;
      ghost var m, base := Img(), logged;
      ghost var s := Account(0, false, {}, {}, {});
      StartWriting(i, off, data);
      tot := 0;
      while tot < |data|
        invariant tot <= |data| && Writing(m, base, s, i, off, tot, data)
      {
        var k;
        k, s := WriteStep(i, off, tot, data, m, base, s);
        if k == 0 {
          Total(s, base, logged, off, |data|);
          return;
        }
        tot := tot + k;
      }
      DoneWriting(m, base, s, i, off, tot, data);
    }

    lemma DoneWriting(m: Image, base: set<nat>, s: Account, i: nat, off: nat, tot: nat, data: seq<Byte>)
      requires Writing(m, base, s, i, off, tot, data)
      ensures Valid() && loose == {} && Wrote(m, Img(), i, off, data[..tot])
      ensures |logged| < |base| + LogCost(off, |data|)
    {
      Total(s, base, logged, off, |data|);
    }

    /** An unaligned write starts in a block the file already has. */
    lemma FirstRound(m: Image, i: nat, off: nat, d: seq<Byte>)
      requires Valid() && i < |m.inodes| && Wellformed(m) && Mapped(m, i) && off <= m.inodes[i].size
      requires Wrote(m, Img(), i, off, d) && off < MAXBYTES
      ensures Unaligned(off) && |d| == 0 ==> BlockOf(i, off) != 0
    {
      if Unaligned(off) { assert FileBlock(m, i, off / BSIZE) != 0; }
    }

    /** writei: the bytes written so far become part of the file, whatever stopped the loop. */
    method Writei(i: nat, off: nat, data: seq<Byte>) returns (r: int)
      requires AllMapped() && i < |inodes| && off < UINT && |data| < UINT
      modifies this`bitmap, this`blocks, this`inodes, this`own, this`loose, this`logged, this`peak, this`synced
      ensures AllMapped() && |inodes| == |old(inodes)|
      ensures Refused(old(inodes[i].size), off, |data|) ==> r == -1 && Img() == old(Img()) && logged == old(logged)
      ensures !Refused(old(inodes[i].size), off, |data|) ==>
        && 0 <= r <= |data| && (r < |data| ==> Full())
        && Contents(Img(), i) == Splice(old(Contents(Img(), i)), off, data[..r]) && Stores(Img(), i, off, data[..r])
        && (forall j: nat :: j < |inodes| && j != i ==> Contents(Img(), j) == old(Contents(Img(), j)))
        && |logged| <= |old(logged)| + LogCost(off, |data|)
        && peak < |old(logged)| + LogCost(off, |data|)
    {
      if off > inodes[i].size || (off + |data|) % UINT < off { return -1; }
      if off + |data| > MAXBYTES { return -1; }
      ghost var was := Whole(i);
      r := WriteAndUpdate(i, off, data);
      Spliced(i, off, data[..r], was);
    }

    lemma Spliced(i: nat, off: nat, d: seq<Byte>, was: seq<Byte>)
      requires AllMapped() && i < |inodes| && Wellformed(Img())
      requires off <= |was| && Contents(Img(), i) == Splice(was, off, d)
      ensures Stores(Img(), i, off, d)
    {
      hide Covered, Tree, Marked, Mapped, Contents, Stores, Wellformed;
      ghost var file := Whole(i);
      assert file[off..off + |d|] == d;
      SliceStored(Img(), lay, own, i, off, d);
    }

    /** writei after its tests: the loop, the new size and iupdate. */
    method WriteAndUpdate(i: nat, off: nat, data: seq<Byte>) returns (tot: nat)
      requires AllMapped() && i < |inodes| && off <= inodes[i].size && off + |data| <= MAXBYTES
      modifies this`bitmap, this`blocks, this`inodes, this`own, this`loose, this`logged, this`peak, this`synced
      ensures AllMapped() && |inodes| == |old(inodes)| && tot <= |data| && (tot < |data| ==> Full())
      ensures Wellformed(old(Img())) && Wellformed(Img())
      ensures Contents(Img(), i) == Splice(old(Contents(Img(), i)), off, data[..tot])
      ensures forall j: nat :: j < |inodes| && j != i ==> Contents(Img(), j) == Contents(old(Img()), j)
      ensures |logged| <= |old(logged)| + LogCost(off, |data|) && peak < |old(logged)| + LogCost(off, |data|)
    {
      hide Covered, Tree, Marked, Wrote, Contents, Mapped, Slot, Used, LogCost, Splice, Wellformed;
      WellformedNow();
      ghost var m := Img();
      tot := WriteBytes(i, off, data);
      FinishWrite(m, i, off, data[..tot]);
      if off + tot > inodes[i].size { inodes := inodes[i := inodes[i].(size := off + tot)]; }
      UnionBound(logged, {Iblock(i)});
      Iupdate(i);
      assert synced == inodes;
    }

    lemma FinishWrite(m: Image, i: nat, off: nat, d: seq<Byte>)
      requires Valid() && loose == {} && i < |m.inodes| && Wellformed(m) && Wrote(m, Img(), i, off, d)
        && off <= m.inodes[i].size
      requires forall j: nat :: j < |m.inodes| ==> Mapped(m, j)
      ensures |inodes| == |m.inodes| && Wellformed(Img())
      ensures var t := WithSize(Img(), i, Max(inodes[i].size, off + |d|));
        && Tree(t, lay, own) && Marked(t, lay, own, {}) && Wellformed(t)
        && (forall j: nat :: j < |m.inodes| ==> Mapped(t, j))
        && Contents(t, i) == Splice(Contents(m, i), off, d)
        && (forall j: nat :: j < |m.inodes| && j != i ==> Contents(t, j) == Contents(m, j))
        && (off + |d| <= inodes[i].size ==> t == Img())
        && (forall j: nat :: j < |m.inodes| && j != i ==> inodes[j] == m.inodes[j])
    {
      SizeKeeps(Img(), lay, own, i, Max(inodes[i].size, off + |d|));
      WroteDone(m, Img(), i, off, d);
    }

    /** readi: the part of the file in [off, off + n), and no allocation on the way. */
    method Readi(i: nat, off: nat, n: nat) returns (out: seq<Byte>)
      requires AllMapped() && i < |inodes| && off < UINT && n < UINT
      modifies this`bitmap, this`blocks, this`inodes, this`own, this`loose, this`logged, this`peak
      ensures AllMapped() && Img() == old(Img()) && own == old(own) && logged == old(logged)
      ensures off > inodes[i].size || off + n >= UINT ==> out == []
      ensures off <= inodes[i].size && off + n < UINT ==> out == Contents(Img(), i)[off..Min(off + n, inodes[i].size)]
      ensures Stores(Img(), i, off, out)
    {
      hide Covered, Tree, Marked, Grows, Slot, Used, FileBlock, ByteAt, Mapped, Contents;
      ghost var file := Whole(i);
      if off > inodes[i].size || (off + n) % UINT < off { return []; }
      var m := if off + n > inodes[i].size then inodes[i].size - off else n;
      out := [];
      while |out| < m
        invariant |out| <= m && i < |inodes| && off + m <= inodes[i].size == |file|
        invariant AllMapped() && Img() == old(Img()) && own == old(own) && logged == old(logged)
        invariant out == file[off..off + |out|]
      {
        var piece := ReadRound(i, off + |out|, m - |out|, file);
        out := out + piece;
      }
      SliceStored(Img(), lay, own, i, off, out);
    }

    /** One round of readi's loop: bmap finds the block, and the bytes are copied out. */
    method ReadRound(i: nat, pos: nat, left: nat, ghost file: seq<Byte>) returns (piece: seq<Byte>)
      requires AllMapped() && i < |inodes| && pos + left <= inodes[i].size && left > 0
      requires Wellformed(Img()) && file == Contents(Img(), i)
      modifies this`bitmap, this`blocks, this`inodes, this`own, this`loose, this`logged, this`peak
      ensures AllMapped() && Img() == old(Img()) && own == old(own) && logged == old(logged)
      ensures 0 < |piece| <= left && pos + |piece| <= |file| && piece == file[pos..pos + |piece|]
    {
      hide Covered, Tree, Marked, Grows, Slot, Used, ByteAt, Mapped, FileBlock, Contents;
      BelowSize(i, pos);
      var addr := Bmap(i, pos / BSIZE);
      var k := Min(left, BSIZE - pos % BSIZE);
      Piece(Img(), i, pos, k);
      piece := blocks[addr][pos % BSIZE..pos % BSIZE + k];
    }

    ghost function Whole(i: nat): (file: seq<Byte>)
      requires AllMapped() && i < |inodes|
      reads this
      ensures Wellformed(Img()) && file == Contents(Img(), i) && |file| == inodes[i].size
    {
      Contents(Img(), i)
    }

    lemma SizeFits(i: nat)
      requires AllMapped() && i < |inodes|
      ensures inodes[i].size <= MAXBYTES && Wellformed(Img())
    {
      assert Mapped(Img(), i);
    }

    lemma BelowSize(i: nat, pos: nat)
      requires AllMapped() && i < |inodes| && pos < inodes[i].size
      ensures inodes[i].size <= MAXBYTES && Wellformed(Img()) && pos < MAXBYTES
      ensures 0 < FileBlock(Img(), i, pos / BSIZE) < |blocks|
      ensures |Contents(Img(), i)| == inodes[i].size
    {
      assert Mapped(Img(), i);
      assert FileBlock(Img(), i, pos / BSIZE) != 0;
      assert Slot(Img(), i, Nth(pos / BSIZE)) in own;
    }
  }

  /** writei's two tests, on 32-bit unsigned sums. */
  predicate Refused(size: nat, off: nat, n: nat) {
    off > size || (off + n) % UINT < off || off + n > MAXBYTES
  }

  lemma WroteNothing(m: Image, i: nat, off: nat)
    requires Wellformed(m) && i < |m.inodes| && off <= MAXBYTES
    ensures Wrote(m, m, i, off, [])
  {
  }

  lemma MapFacts(m: Image, u: Image, own: Owners, i: nat, bn: nat)
    requires Grows(m, u, own, i, {NDIRECT, Nth(bn)}) && i < |m.inodes| && bn < MAXFILE
    ensures Wellformed(u) && |u.inodes| == |m.inodes|
      && (Slot(m, i, NDIRECT) != 0 ==> Slot(u, i, NDIRECT) == Slot(m, i, NDIRECT))
    ensures bn >= NDIRECT && FileBlock(u, i, bn) != 0 ==> Slot(u, i, NDIRECT) != 0
  {
    assert Slot(u, i, NDIRECT) == u.inodes[i].addrs[NDIRECT];
  }

  lemma AllocKeeps(m: Image, lay: Layout, own: Owners, b: nat)
    requires Tree(m, lay, own) && Marked(m, lay, own, {}) && b < |m.blocks| && !Used(m.bitmap, b)
    ensures var t := m.(bitmap := Mark(m.bitmap, b), blocks := m.blocks[b := ZERO]);
      Tree(t, lay, own) && Marked(t, lay, own, {b}) && InData(m, lay, b) && b !in own
  {
    MarkUsed(m.bitmap, b);
    SameSlots(m, lay, own, b, ZERO, Mark(m.bitmap, b));
  }

  /** Block b, fresh from balloc, becomes slot k of inode i. */
  lemma AddrStep(m: Image, u: Image, lay: Layout, own: Owners, i: nat, k: nat, b: nat)
    requires Tree(m, lay, own) && Tree(u, lay, own) && Marked(u, lay, own, {b})
    requires i < |m.inodes| && k <= NDIRECT && Slot(m, i, k) == 0
    requires b < |m.blocks| && u.inodes == m.inodes && u.blocks == m.blocks[b := ZERO]
    ensures var t := WithAddr(u, i, k, b);
      && Tree(t, lay, own[b := (i, k)]) && Marked(t, lay, own[b := (i, k)], {})
      && Grows(m, t, own, i, {k}) && Submap(own, own[b := (i, k)]) && Slot(t, i, k) == b
  {
    var t := WithAddr(u, i, k, b);
    SameSlots(m, lay, own, b, ZERO, u.bitmap);
    assert u == m.(blocks := m.blocks[b := ZERO], bitmap := u.bitmap);
    SetAddr(u, lay, own, i, k, b);
  }

  /** Block b, fresh from balloc, becomes entry j of inode i's indirect block. */
  lemma EntryStep(m: Image, u: Image, lay: Layout, own: Owners, i: nat, j: nat, b: nat)
    requires Tree(m, lay, own) && Tree(u, lay, own) && Marked(u, lay, own, {b})
    requires i < |m.inodes| && j < NINDIRECT && Slot(m, i, NDIRECT) != 0 && Slot(m, i, NDIRECT + 1 + j) == 0
    requires b < |m.blocks| && u.inodes == m.inodes && u.blocks == m.blocks[b := ZERO]
    ensures Slot(m, i, NDIRECT) < |u.blocks|
    ensures var t, own1 := WithEntry(u, Slot(m, i, NDIRECT), j, b), own[b := (i, NDIRECT + 1 + j)];
      && Tree(t, lay, own1) && Marked(t, lay, own1, {})
      && Grows(m, t, own, i, {NDIRECT + 1 + j}) && Submap(own, own1)
      && Slot(t, i, NDIRECT + 1 + j) == b && Slot(t, i, NDIRECT) == Slot(m, i, NDIRECT)
  {
    var a := Slot(m, i, NDIRECT);
    SameSlots(m, lay, own, b, ZERO, u.bitmap);
    assert u == m.(blocks := m.blocks[b := ZERO], bitmap := u.bitmap);
    SetEntry(u, lay, own, i, j, b);
    var t := WithEntry(u, a, j, b);
    assert a in own && own[a] == (i, NDIRECT);
    forall c | c in own && own[c].1 != NDIRECT && c < |m.blocks| ensures t.blocks[c] == m.blocks[c] {
      assert c != a && c != b;
    }
  }
}
