/** itrunc's effect on slots and bitmap, one freed block at a time. */
module Truncate {
  import opened Params
  import opened Bitmap
  import opened Inodes

  /** What is left of the owners once slots below k of inode i are empty. */
  ghost function Without(own: Owners, i: nat, k: nat): Owners {
    map b | b in own && !(own[b].0 == i && own[b].1 < k) :: own[b]
  }

  /** Blocks of inode i's indirect part that are still marked when entries below j have been freed. */
  ghost function Rest(own: Owners, i: nat, j: nat): set<nat> {
    set b | b in own && own[b].0 == i && (own[b].1 == NDIRECT || own[b].1 >= NDIRECT + 1 + j)
  }

  /** A direct block: bfree finds its bit set, and the slot goes. */
  lemma FreeDirect(m: Image, lay: Layout, own: Owners, i: nat, k: nat)
    requires Tree(m, lay, own) && Marked(m, lay, own, {}) && i < |m.inodes| && k < NDIRECT && Slot(m, i, k) != 0
    ensures var b := Slot(m, i, k);
      && Used(m.bitmap, b) && b < |m.blocks|
      && var t := WithAddr(m, i, k, 0).(bitmap := Unmark(m.bitmap, b));
         Tree(t, lay, own - {b}) && Marked(t, lay, own - {b}, {})
  {
    var b := Slot(m, i, k);
    UnmarkUsed(m.bitmap, b);
    var t := WithAddr(m, i, k, 0).(bitmap := Unmark(m.bitmap, b));
    forall j: nat, l: nat | j < |m.inodes| && l < NSLOT
      ensures Slot(t, j, l) == if (j, l) == (i, k) then 0 else Slot(m, j, l)
    {
      assert Slot(m, i, NDIRECT) == m.inodes[i].addrs[NDIRECT];
    }
  }

  /** Freeing a block in no slot. */
  lemma FreeLoose(m: Image, lay: Layout, own: Owners, loose: set<nat>, b: nat)
    requires Tree(m, lay, own) && Marked(m, lay, own, loose) && b in loose
    ensures Used(m.bitmap, b) && b < |m.blocks|
    ensures var t := m.(bitmap := Unmark(m.bitmap, b)); Tree(t, lay, own) && Marked(t, lay, own, loose - {b})
  {
    UnmarkUsed(m.bitmap, b);
    var t := m.(bitmap := Unmark(m.bitmap, b));
    assert forall i: nat, k: nat :: i < |m.inodes| && k < NSLOT ==> Slot(t, i, k) == Slot(m, i, k);
  }

  /** Dropping the indirect block's address takes its entries' slots with it. */
  lemma Detach(m: Image, lay: Layout, own: Owners, i: nat)
    requires Tree(m, lay, own) && Marked(m, lay, own, {}) && i < |m.inodes| && Slot(m, i, NDIRECT) != 0
    requires forall b :: b in own && own[b].0 == i ==> own[b].1 >= NDIRECT
    ensures var t := WithAddr(m, i, NDIRECT, 0);
      Tree(t, lay, Without(own, i, NSLOT)) && Marked(t, lay, Without(own, i, NSLOT), Rest(own, i, 0))
  {
    var t := WithAddr(m, i, NDIRECT, 0);
    forall j: nat, l: nat | j < |m.inodes| && l < NSLOT
      ensures Slot(t, j, l) == if j == i && l >= NDIRECT then 0 else Slot(m, j, l)
    {
    }
    assert t.bitmap == m.bitmap && |t.blocks| == |m.blocks|;
  }

  /** Entry j: bfree takes exactly the block in it. */
  lemma NextEntry(m: Image, lay: Layout, own: Owners, i: nat, j: nat)
    requires Tree(m, lay, own) && i < |m.inodes| && j < NINDIRECT
    ensures var w := Slot(m, i, NDIRECT + 1 + j);
      if w == 0 then Rest(own, i, j) == Rest(own, i, j + 1)
      else w in Rest(own, i, j) && Rest(own, i, j) - {w} == Rest(own, i, j + 1)
  {
    var w := Slot(m, i, NDIRECT + 1 + j);
    forall b | b in Rest(own, i, j) && b != w ensures b in Rest(own, i, j + 1) {
      assert own[b] == (i, own[b].1);
    }
    if w != 0 { assert own[w] == (i, NDIRECT + 1 + j); }
    assert Rest(own, i, j + 1) <= Rest(own, i, j);
    assert 0 !in own;
    assert w !in Rest(own, i, j + 1);
  }

  lemma LastIsIndirect(m: Image, lay: Layout, own: Owners, i: nat)
    requires Tree(m, lay, own) && i < |m.inodes| && Slot(m, i, NDIRECT) != 0
    ensures Rest(own, i, NINDIRECT) == {Slot(m, i, NDIRECT)}
  {
    assert own[Slot(m, i, NDIRECT)] == (i, NDIRECT);
  }

  lemma NothingLeft(m: Image, lay: Layout, own: Owners, i: nat)
    requires Tree(m, lay, own) && i < |m.inodes| && Slot(m, i, NDIRECT) == 0
    ensures Without(own, i, NDIRECT) == Without(own, i, NSLOT)
  {
    forall b | b in own && own[b].0 == i ensures own[b].1 < NDIRECT {
      assert Slot(m, i, own[b].1) == b;
      assert Slot(m, i, NDIRECT) == m.inodes[i].addrs[NDIRECT];
    }
  }

  lemma NextSlot(m: Image, lay: Layout, own: Owners, i: nat, k: nat, sub: Owners)
    requires Tree(m, lay, sub) && i < |m.inodes| && k < NDIRECT && sub == Without(own, i, k)
    ensures var b := Slot(m, i, k);
      Without(own, i, k + 1) == if b == 0 then sub else sub - {b}
  {
    var b := Slot(m, i, k);
    assert 0 !in sub;
    if b != 0 { assert sub[b] == (i, k); }
    forall c | c in sub && c != b ensures c in Without(own, i, k + 1) {
      assert sub[c] == own[c] && Slot(m, sub[c].0, sub[c].1) == c;
    }
  }

  /** The addresses with the first k gone. */
  function Zeroed(s: seq<nat>, k: nat): (r: seq<nat>)
    requires k <= |s|
    ensures |r| == |s|
  {
    seq(k, l => 0) + s[k..]
  }

  lemma ZeroNext(s: seq<nat>, k: nat)
    requires k < |s|
    ensures Zeroed(s, k + 1) == Zeroed(s, k)[k := 0]
    ensures Zeroed(s, k)[k] == s[k] && (s[k] == 0 ==> Zeroed(s, k + 1) == Zeroed(s, k))
  {
    assert Zeroed(s, k + 1) == Zeroed(s, k)[k := 0];
    if s[k] == 0 { assert Zeroed(s, k)[k := 0] == Zeroed(s, k); }
  }

  function Put(inodes: seq<Inode>, i: nat, addrs: seq<nat>): (r: seq<Inode>)
    requires i < |inodes|
    ensures |r| == |inodes|
  {
    inodes[i := inodes[i].(addrs := addrs)]
  }

  /** One more slot emptied. */
  lemma PutNext(inodes: seq<Inode>, i: nat, k: nat)
    requires i < |inodes| && k < |inodes[i].addrs|
    ensures var r := Put(inodes, i, Zeroed(inodes[i].addrs, k));
      && r[i].addrs == Zeroed(inodes[i].addrs, k)
      && Put(r, i, r[i].addrs[k := 0]) == Put(inodes, i, Zeroed(inodes[i].addrs, k + 1))
  {
    ZeroNext(inodes[i].addrs, k);
  }

  lemma OnlyIndirectLeft(own: Owners, i: nat)
    ensures var sub := Without(own, i, NDIRECT);
      && (forall b :: b in sub && sub[b].0 == i ==> sub[b].1 >= NDIRECT)
      && Without(sub, i, NSLOT) == Without(own, i, NSLOT) && Without(sub, i, NDIRECT) == sub
  {
  }

  /** Twelve slots emptied, then the thirteenth. */
  lemma AllZero(inodes: seq<Inode>, i: nat)
    requires i < |inodes| && |inodes[i].addrs| == NDIRECT + 1
    ensures var r := Put(inodes, i, Zeroed(inodes[i].addrs, NDIRECT));
      && Put(r, i, r[i].addrs[NDIRECT := 0]) == Put(inodes, i, seq(NDIRECT + 1, k => 0))
      && (r[i].addrs[NDIRECT] == 0 ==> r == Put(inodes, i, seq(NDIRECT + 1, k => 0)))
  {
    var r := Put(inodes, i, Zeroed(inodes[i].addrs, NDIRECT));
    assert r[i].addrs[NDIRECT := 0] == seq(NDIRECT + 1, k => 0);
    if r[i].addrs[NDIRECT] == 0 { assert r[i].addrs[NDIRECT := 0] == r[i].addrs; }
  }

  /** The bits that went are those of inode i's blocks. */
  lemma FreedExactly(m: Image, t: Image, lay: Layout, own: Owners, i: nat)
    requires Tree(m, lay, own) && Marked(m, lay, own, {}) && Marked(t, lay, Without(own, i, NSLOT), {})
      && |t.blocks| == |m.blocks|
    ensures forall b: nat :: b < |m.blocks| ==>
      (Used(t.bitmap, b) <==> Used(m.bitmap, b) && !(b in own && own[b].0 == i))
  {
    forall b: nat | b < |m.blocks| ensures Used(t.bitmap, b) <==> Used(m.bitmap, b) && !(b in own && own[b].0 == i) {
      assert b in Without(own, i, NSLOT) <==> b in own && own[b].0 != i;
    }
  }
}
