/**
 malloc and free (umalloc.c).  Memory is the ptr and size fields of the
 headers, by header address; `free` and `live` are the blocks they describe.
 */
module Umalloc {
  import opened FreeList
  import opened Wrappers
  import opened Params

  /** The list as the headers link it: the sentinel is node 0 and again node |free| + 1. */
  function Node(base: int, free: seq<Blk>, i: int): int {
    if 1 <= i <= |free| then free[i - 1].a else base
  }

  predicate NodeOk(base: int, free: seq<Blk>, ptr: map<int, int>, size: map<int, nat>, i: nat) {
    var a := Node(base, free, i);
    && a in ptr && a in size
    && ptr[a] == Node(base, free, i + 1)
    && size[a] == if 1 <= i <= |free| then free[i - 1].n else 0
  }

  /** ptr and size form one cycle through the sentinel and every free block, in order. */
  predicate Threaded(base: int, free: seq<Blk>, ptr: map<int, int>, size: map<int, nat>) {
    forall i :: 0 <= i <= |free| ==> NodeOk(base, free, ptr, size, i)
  }

  lemma NodesDistinct(base: int, free: seq<Blk>, i: nat, j: nat)
    requires Apart(base, free) && i <= |free| && j <= |free|
    ensures i < j ==> Node(base, free, i) < Node(base, free, j)
    ensures i != j ==> Node(base, free, i) != Node(base, free, j)
  {
  }

  /** Node k of the old list is untouched. */
  predicate SameNode(base: int, free: seq<Blk>, k: nat, ptr: map<int, int>, size: map<int, nat>,
                     ptr': map<int, int>, size': map<int, nat>) {
    var a := Node(base, free, k);
    && a in ptr && a in ptr' && a in size && a in size'
    && ptr'[a] == ptr[a] && size'[a] == size[a]
  }

  /** One block b takes the place of free[i..j]. */
  lemma RelinkSplice(base: int, free: seq<Blk>, ptr: map<int, int>, size: map<int, nat>,
                     i: nat, j: nat, b: Blk, ptr': map<int, int>, size': map<int, nat>)
    requires Threaded(base, free, ptr, size) && i <= j <= |free|
    requires forall k :: 0 <= k < i || j < k <= |free| ==> SameNode(base, free, k, ptr, size, ptr', size')
    requires var p := Node(base, free, i);
             p in ptr' && p in size' && p in size && ptr'[p] == b.a && size'[p] == size[p]
    requires b.a in ptr' && b.a in size' && ptr'[b.a] == Node(base, free, j + 1) && size'[b.a] == b.n
    ensures Threaded(base, Splice(free, i, j, [b]), ptr', size')
  {
    var free' := Splice(free, i, j, [b]);
    forall k | 0 <= k <= |free'| ensures NodeOk(base, free', ptr', size', k) {
      if k <= i {
        assert NodeOk(base, free, ptr, size, k);
        assert k < i ==> SameNode(base, free, k, ptr, size, ptr', size');
      } else if k > i + 1 {
        assert NodeOk(base, free, ptr, size, k - i - 1 + j);
        assert SameNode(base, free, k - i - 1 + j, ptr, size, ptr', size');
      }
    }
  }

  /** free[i] leaves the list. */
  lemma Unlink(base: int, free: seq<Blk>, ptr: map<int, int>, size: map<int, nat>, i: nat)
    requires Threaded(base, free, ptr, size) && Apart(base, free) && i < |free|
    ensures Threaded(base, Splice(free, i, i + 1, []), ptr[Node(base, free, i) := Node(base, free, i + 2)], size)
  {
    var free' := Splice(free, i, i + 1, []);
    var ptr' := ptr[Node(base, free, i) := Node(base, free, i + 2)];
    forall k | 0 <= k <= |free'| ensures NodeOk(base, free', ptr', size, k) {
      var was := if k <= i then k else k + 1;
      assert NodeOk(base, free, ptr, size, was);
      NodesDistinct(base, free, i, was);
    }
  }

  /** The test of free's search loop, at the node p. */
  predicate StopsAt(bp: int, p: int, next: int) {
    (bp > p && bp < next) || (p >= next && (bp > p || bp < next))
  }

  lemma StopsExactlyAtGap(base: int, free: seq<Blk>, bp: int, g: nat, i: nat)
    requires Apart(base, free) && GapAt(base, free, bp, g) && i <= |free|
    ensures StopsAt(bp, Node(base, free, i), Node(base, free, i + 1)) <==> i == g
  {
  }

  /** Steps from node i to node g around a cycle of |free| + 1 nodes. */
  function Distance(len: nat, i: nat, g: nat): int {
    if i <= g then g - i else len + 1 - i + g
  }

  ghost function Gap(base: int, free: seq<Blk>, bp: int): (g: nat)
    requires Apart(base, free) && base < bp && forall i :: 0 <= i < |free| ==> free[i].a != bp
    ensures GapAt(base, free, bp, g)
  {
    if free == [] || free[|free| - 1].a < bp then |free| else Gap(base, free[..|free| - 1], bp)
  }

  /** free's writes to ptr and size: absorb the next block, then be absorbed by the previous one. */
  function PtrAfter(ptr: map<int, int>, p: int, bp: int, joinsNext: bool, joinsPrevious: bool): map<int, int>
    requires p in ptr && ptr[p] in ptr
  {
    var upper := ptr[bp := if joinsNext then ptr[ptr[p]] else ptr[p]];
    upper[p := if joinsPrevious then upper[bp] else bp]
  }

  function SizeAfter(ptr: map<int, int>, size: map<int, nat>, p: int, bp: int, joinsNext: bool, joinsPrevious: bool)
    : map<int, nat>
    requires p in ptr && p in size && bp in size && ptr[p] in size
  {
    var upper := if joinsNext then size[bp := size[bp] + size[ptr[p]]] else size;
    if joinsPrevious then upper[p := upper[p] + upper[bp]] else upper
  }

  lemma RelinkFreed(base: int, free: seq<Blk>, ptr: map<int, int>, size: map<int, nat>, g: nat, b: Blk)
    requires Threaded(base, free, ptr, size) && Apart(base, free) && GapAt(base, free, b.a, g)
    requires b.a in size && size[b.a] == b.n
    ensures var p := Node(base, free, g);
            && p in ptr && p in size && ptr[p] in ptr && ptr[p] in size
            && (JoinsNext(free, g, b) <==> b.a + size[b.a] == ptr[p])
            && (JoinsPrevious(free, g, b) <==> p + size[p] == b.a)
            && Threaded(base, Coalesce(free, g, b),
                        PtrAfter(ptr, p, b.a, JoinsNext(free, g, b), JoinsPrevious(free, g, b)),
                        SizeAfter(ptr, size, p, b.a, JoinsNext(free, g, b), JoinsPrevious(free, g, b)))
  {
    var p, next := Node(base, free, g), if g < |free| then g + 1 else 0;
    assert NodeOk(base, free, ptr, size, g) && NodeOk(base, free, ptr, size, next);
    assert ptr[p] == Node(base, free, next);
    var jn, jp := JoinsNext(free, g, b), JoinsPrevious(free, g, b);
    var ptr', size' := PtrAfter(ptr, p, b.a, jn, jp), SizeAfter(ptr, size, p, b.a, jn, jp);
    var i, j, m := From(free, g, b), To(free, g, b), Merged(free, g, b);
    forall k | 0 <= k < i || j < k <= |free| ensures SameNode(base, free, k, ptr, size, ptr', size') {
      assert NodeOk(base, free, ptr, size, k);
      NodesDistinct(base, free, k, g);
    }
    assert NodeOk(base, free, ptr, size, i);
    RelinkSplice(base, free, ptr, size, i, j, m, ptr', size');
  }

  lemma NodeAfterFree(base: int, free: seq<Blk>, g: nat, b: Blk)
    requires g <= |free|
    ensures g <= |Coalesce(free, g, b)| && Node(base, Coalesce(free, g, b), g) == Node(base, free, g)
  {
  }

  /** Live and free blocks never overlap and lie between the sentinel and top. */
  ghost predicate Layout(base: int, top: int, free: seq<Blk>, live: seq<Blk>) {
    && 0 < base < top && Apart(base, free) && AllDisjoint(live) && Separate(free, live)
    && (forall k :: 0 <= k < |live| ==> live[k].n > 0 && base < live[k].a && live[k].a + live[k].n <= top)
    && (forall i :: 0 <= i < |free| ==> free[i].a + free[i].n <= top)
  }

  /** b lies beside every block. */
  ghost predicate Outside(base: int, top: int, free: seq<Blk>, live: seq<Blk>, b: Blk) {
    b.n > 0 && base < b.a && b.a + b.n <= top && Separate(free, [b]) && Separate([b], live)
  }

  /** Each live block's header still holds its size. */
  ghost predicate Sized(live: seq<Blk>, size: map<int, nat>) {
    forall k :: 0 <= k < |live| ==> live[k].a in size && size[live[k].a] == live[k].n
  }

  /** freep points into the list. */
  ghost predicate Cursor(base: int, free: seq<Blk>, freep: int) {
    exists i :: 0 <= i <= |free| && Node(base, free, i) == freep
  }

  ghost predicate HasRoom(free: seq<Blk>, n: nat) {
    exists i :: 0 <= i < |free| && free[i].n >= n
  }

  lemma CoalesceLayout(base: int, top: int, free: seq<Blk>, live: seq<Blk>, b: Blk, g: nat)
    requires Layout(base, top, free, live) && Outside(base, top, free, live, b) && GapAt(base, free, b.a, g)
    ensures Layout(base, top, Coalesce(free, g, b), live)
    ensures HasRoom(Coalesce(free, g, b), b.n)
    ensures Sum(Coalesce(free, g, b)) == Sum(free) + b.n
    ensures Cursor(base, Coalesce(free, g, b), Node(base, free, g))
  {
    CoalesceApart(base, free, g, b);
    CoalesceSeparate(free, g, b, live);
    CoalesceSum(free, g, b);
    NodeAfterFree(base, free, g, b);
    var c := Coalesce(free, g, b);
    assert c[From(free, g, b)] == Merged(free, g, b);
  }

  lemma NotAFreeHeader(base: int, top: int, free: seq<Blk>, live: seq<Blk>, b: Blk)
    requires Layout(base, top, free, live) && Outside(base, top, free, live, b)
    ensures forall i :: 0 <= i < |free| ==> free[i].a != b.a
  {
    forall i | 0 <= i < |free| ensures free[i].a != b.a {
      assert Disjoint(free[i], [b][0]);
    }
  }

  /** free writes no live header. */
  lemma LiveHeadersApart(base: int, top: int, free: seq<Blk>, live: seq<Blk>, b: Blk, g: nat)
    requires Layout(base, top, free, live) && Outside(base, top, free, live, b) && g <= |free|
    ensures forall k :: 0 <= k < |live| ==> live[k].a != b.a && live[k].a != Node(base, free, g)
  {
    forall k | 0 <= k < |live| ensures live[k].a != b.a && live[k].a != Node(base, free, g) {
      assert Disjoint([b][0], live[k]);
      if g > 0 { assert Disjoint(free[g - 1], live[k]); }
    }
  }

  const HEADER := 16         // sizeof(Header)
  const MINUNITS := 4096     // what morecore asks for at least

  /** malloc's size in units: the bytes rounded up, plus the header. */
  function Units(nbytes: nat): nat {
    (nbytes + HEADER - 1) / HEADER + 1
  }

  /** The byte count converted to sbrk's int parameter. */
  function AsInt(x: nat): int {
    var w := x % 0x1_0000_0000;
    if w < 0x8000_0000 then w else w - 0x1_0000_0000
  }

  const MAXREQUEST := 0x7fff_ffe0

  /** For a uint request, sbrk is asked for what morecore means exactly up to MAXREQUEST bytes. */
  lemma SbrkArgumentExact(nbytes: nat)
    requires nbytes < 0x1_0000_0000
    ensures AsInt(Max(Units(nbytes), MINUNITS) * HEADER) == Max(Units(nbytes), MINUNITS) * HEADER <==>
      nbytes <= MAXREQUEST
  {
  }

  lemma UnitsHoldRequest(nbytes: nat)
    ensures (Units(nbytes) - 1) * HEADER >= nbytes && (Units(nbytes) - 2) * HEADER < nbytes
  {
  }

  function NodeSize(free: seq<Blk>, i: int): nat {
    if 1 <= i <= |free| then free[i - 1].n else 0
  }

  /** The node t steps after node s on the cycle. */
  function Cyclic(len: nat, s: nat, t: nat): int {
    if s + t <= len then s + t else s + t - len - 1
  }

  /** The t nodes after node s are too small. */
  ghost predicate Tried(free: seq<Blk>, s: nat, t: nat, n: nat) {
    forall j :: 1 <= j <= t ==> NodeSize(free, Cyclic(|free|, s, j)) < n
  }

  lemma TriedAll(free: seq<Blk>, s: nat, n: nat)
    requires s <= |free| && Tried(free, s, |free| + 1, n)
    ensures !HasRoom(free, n)
  {
    forall i | 0 <= i < |free| ensures free[i].n < n {
      var j := if i + 1 > s then i + 1 - s else i + 1 - s + |free| + 1;
      assert Cyclic(|free|, s, j) == i + 1;
    }
  }

  lemma AboveTopIsOutside(base: int, top: int, free: seq<Blk>, live: seq<Blk>, b: Blk)
    requires Layout(base, top, free, live) && top <= b.a && b.n > 0
    ensures Layout(base, b.a + b.n, free, live) && Outside(base, b.a + b.n, free, live, b)
  {
  }

  lemma WithoutLive(base: int, top: int, free: seq<Blk>, live: seq<Blk>, size: map<int, nat>, k: nat)
    requires Layout(base, top, free, live) && Sized(live, size) && k < |live|
    ensures var rest := Splice(live, k, k + 1, []);
      Layout(base, top, free, rest) && Outside(base, top, free, rest, live[k]) && Sized(rest, size)
  {
    var rest := Splice(live, k, k + 1, []);
    assert forall j :: 0 <= j < |rest| ==> rest[j] == live[if j < k then j else j + 1];
    assert Separate(free, [live[k]]);
    assert Separate([live[k]], rest);
    assert Separate(free, rest);
    assert AllDisjoint(rest);
  }

  lemma SumWithoutLive(live: seq<Blk>, k: nat)
    requires k < |live|
    ensures Sum(Splice(live, k, k + 1, [])) + live[k].n == Sum(live)
  {
    SumSplice(live, k, k + 1, []);
    assert live[k..k + 1] == [live[k]];
    SumOne(live[k]);
  }

  lemma CarveLayout(base: int, top: int, free: seq<Blk>, live: seq<Blk>, f: nat, m: nat)
    requires Layout(base, top, free, live) && f < |free| && 0 < m <= free[f].n
    ensures Layout(base, top, Carve(free, f, m), live + [Cut(free[f], m)])
  {
    var cut := Cut(free[f], m);
    CarveApart(base, free, f, m);
    CarveSeparate(base, free, f, m, live);
    AppendDisjoint(live, cut);
    SeparateAppend(Carve(free, f, m), live, cut);
    hide Apart, Separate, AllDisjoint;
    CarveBounds(free, f, m, top);
    HeaderBounds(base, free, f);
  }

  lemma HeaderBounds(base: int, free: seq<Blk>, f: nat)
    requires Apart(base, free) && f < |free|
    ensures base < free[f].a
  {
  }

  lemma CarveBounds(free: seq<Blk>, f: nat, m: nat, top: int)
    requires f < |free| && 0 < m <= free[f].n && forall i :: 0 <= i < |free| ==> free[i].a + free[i].n <= top
    ensures forall i :: 0 <= i < |Carve(free, f, m)| ==> Carve(free, f, m)[i].a + Carve(free, f, m)[i].n <= top
  {
  }

  lemma CarveTotal(free: seq<Blk>, live: seq<Blk>, f: nat, m: nat)
    requires f < |free| && m <= free[f].n
    ensures Sum(Carve(free, f, m)) + Sum(live + [Cut(free[f], m)]) == Sum(free) + Sum(live)
  {
    CarveSum(free, f, m);
    SumConcat(live, [Cut(free[f], m)]);
    SumOne(Cut(free[f], m));
  }

  lemma SeparateAppend(xs: seq<Blk>, live: seq<Blk>, b: Blk)
    requires Separate(xs, live) && Separate(xs, [b])
    ensures Separate(xs, live + [b])
  {
    forall i | 0 <= i < |xs| ensures Disjoint(xs[i], b) {
      assert Disjoint(xs[i], [b][0]);
    }
  }

  /** malloc's two ways to take m units from node f + 1. */
  lemma CarveThreaded(base: int, free: seq<Blk>, ptr: map<int, int>, size: map<int, nat>, f: nat, m: nat)
    requires Threaded(base, free, ptr, size) && Apart(base, free) && f < |free| && 0 < m <= free[f].n
    ensures NodeOk(base, free, ptr, size, f) && NodeOk(base, free, ptr, size, f + 1)
    ensures m == free[f].n ==>
      Threaded(base, Carve(free, f, m), ptr[Node(base, free, f) := ptr[free[f].a]], size)
    ensures m < free[f].n ==>
      Threaded(base, Carve(free, f, m), ptr, size[free[f].a := free[f].n - m][free[f].a + free[f].n - m := m])
    ensures Cursor(base, Carve(free, f, m), Node(base, free, f))
  {
    assert NodeOk(base, free, ptr, size, f) && NodeOk(base, free, ptr, size, f + 1);
    if m == free[f].n {
      Unlink(base, free, ptr, size, f);
    } else {
      var size' := size[free[f].a := free[f].n - m][free[f].a + free[f].n - m := m];
      forall k | 0 <= k < f || f + 1 < k <= |free| ensures SameNode(base, free, k, ptr, size, ptr, size') {
        assert NodeOk(base, free, ptr, size, k);
      }
      RelinkSplice(base, free, ptr, size, f, f + 1, Blk(free[f].a, free[f].n - m), ptr, size');
    }
    assert Node(base, Carve(free, f, m), f) == Node(base, free, f);
  }

  /** Writing the cut's sizes leaves every live header as it was. */
  lemma CutHeaderFresh(base: int, top: int, free: seq<Blk>, live: seq<Blk>, size: map<int, nat>, f: nat, m: nat)
    requires Layout(base, top, free, live) && Sized(live, size) && f < |free| && 0 < m <= free[f].n
    ensures m < free[f].n ==>
      Sized(live + [Cut(free[f], m)], size[free[f].a := free[f].n - m][free[f].a + free[f].n - m := m])
    ensures m == free[f].n && free[f].a in size && size[free[f].a] == m ==> Sized(live + [Cut(free[f], m)], size)
  {
    forall k | 0 <= k < |live| ensures live[k].a != free[f].a && live[k].a != free[f].a + free[f].n - m {
      assert Disjoint(free[f], live[k]);
    }
  }

  lemma TakeKeepsHeap(base: int, top: int, free: seq<Blk>, live: seq<Blk>, ptr: map<int, int>, size: map<int, nat>,
                      f: nat, m: nat)
    requires Layout(base, top, free, live) && Sized(live, size) && Threaded(base, free, ptr, size)
    requires f < |free| && 0 < m <= free[f].n
    ensures var a, n, free', live' := free[f].a, free[f].n, Carve(free, f, m), live + [Cut(free[f], m)];
      && a in ptr && a in size && size[a] == n && Node(base, free, f) in ptr && Node(base, free, f) > 0
      && Layout(base, top, free', live') && Cursor(base, free', Node(base, free, f))
      && Sum(free') + Sum(live') == Sum(free) + Sum(live)
      && (m == n ==> Threaded(base, free', ptr[Node(base, free, f) := ptr[a]], size) && Sized(live', size))
      && (m < n ==> Threaded(base, free', ptr, size[a := n - m][a + n - m := m])
                    && Sized(live', size[a := n - m][a + n - m := m]))
  {
    CarveThreaded(base, free, ptr, size, f, m);
    CarveLayout(base, top, free, live, f, m);
    CarveTotal(free, live, f, m);
    CutHeaderFresh(base, top, free, live, size, f, m);
  }

  lemma RoomAt(free: seq<Blk>, f: nat, n: nat)
    requires f < |free| && free[f].n >= n
    ensures HasRoom(free, n)
  {
  }

  lemma TriedNone(free: seq<Blk>, s: nat, n: nat)
    ensures Tried(free, s, 0, n)
  {
  }

  lemma TriedOneMore(free: seq<Blk>, s: nat, t: nat, n: nat)
    requires Tried(free, s, t, n) && NodeSize(free, Cyclic(|free|, s, t + 1)) < n
    ensures Tried(free, s, t + 1, n)
  {
  }

  class Heap {
    const base: int                 // address of the static header `base`
    var ptr: map<int, int>
    var size: map<int, nat>
    var freep: int                  // 0 before the first malloc
    ghost var free: seq<Blk>
    ghost var live: seq<Blk>        // blocks handed out and not yet freed
    ghost var top: int              // memory obtained so far lies below top
    ghost var total: nat            // units obtained from sbrk

    ghost predicate Valid()
      reads this
    {
      && Layout(base, top, free, live) && Sum(free) + Sum(live) == total && Sized(live, size)
      && if freep == 0 then free == [] && live == []
         else Threaded(base, free, ptr, size) && Cursor(base, free, freep)
    }

    constructor (base: int, top: int)
      requires 0 < base < top
      ensures Valid() && free == [] && live == [] && total == 0 && freep == 0
      ensures this.base == base && this.top == top
    {
      this.base, this.top := base, top;
      ptr, size, freep := map[], map[], 0;
      free, live, total := [], [], 0;
    }

    /** free's search loop. */
    method FindGap(bp: int) returns (p: int, ghost g: nat)
      requires freep != 0 && Apart(base, free) && Threaded(base, free, ptr, size)
      requires Cursor(base, free, freep)
      requires base < bp && forall i :: 0 <= i < |free| ==> free[i].a != bp
      ensures GapAt(base, free, bp, g) && p == Node(base, free, g)
    {
      g := Gap(base, free, bp);
      p := freep;
      ghost var i :| 0 <= i <= |free| && Node(base, free, i) == freep;
      assert NodeOk(base, free, ptr, size, i);
      while !(bp > p && bp < ptr[p])
        invariant 0 <= i <= |free| && p == Node(base, free, i) && NodeOk(base, free, ptr, size, i)
        decreases Distance(|free|, i, g)
      {
        StopsExactlyAtGap(base, free, bp, g, i);
        if p >= ptr[p] && (bp > p || bp < ptr[p]) {
          break;
        }
        i := if i == |free| then 0 else i + 1;
        assert NodeOk(base, free, ptr, size, i);
        p := ptr[p];
      }
      StopsExactlyAtGap(base, free, bp, g, i);
    }

    /** free's two if statements, once the gap is found. */
    method InsertAfter(p: int, bp: int, ghost g: nat, ghost b: Blk)
      requires Apart(base, free) && Threaded(base, free, ptr, size)
      requires GapAt(base, free, bp, g) && p == Node(base, free, g)
      requires b.a == bp && bp in size && size[bp] == b.n
      modifies this`ptr, this`size
      ensures Threaded(base, Coalesce(free, g, b), ptr, size)
      ensures forall a :: a in old(size) && a != bp && a != p ==> a in size && size[a] == old(size)[a]
    {
      RelinkFreed(base, free, ptr, size, g, b);
      hide Threaded, Coalesce;
      if bp + size[bp] == ptr[p] {
        size := size[bp := size[bp] + size[ptr[p]]];
        ptr := ptr[bp := ptr[ptr[p]]];
      } else {
        ptr := ptr[bp := ptr[p]];
      }
      if p + size[p] == bp {
        size := size[p := size[p] + size[bp]];
        ptr := ptr[p := ptr[bp]];
      } else {
        ptr := ptr[p := bp];
      }
    }

    /** b has been taken out of `live` or just obtained from sbrk; everything else is in order. */
    ghost predicate Pending(b: Blk)
      reads this
    {
      && Layout(base, top, free, live) && Outside(base, top, free, live, b)
      && Sum(free) + Sum(live) + b.n == total && Sized(live, size) && b.a in size && size[b.a] == b.n
      && freep != 0 && Threaded(base, free, ptr, size) && Cursor(base, free, freep)
    }

    /** The code of free: b's units join the free list, merged with whatever they touch. */
    method Insert(ap: int, ghost b: Blk)
      requires Pending(b) && ap == b.a + 1
      modifies this`ptr, this`size, this`freep, this`free
      ensures Valid() && freep != 0
      ensures forall u :: Covers(free, u) <==> old(Covers(free, u)) || Within(b, u)
      ensures HasRoom(free, b.n)
    {
      hide Coalesce, Covers, Separate, AllDisjoint, Threaded, Sum, HasRoom, Cursor;
      var bp := ap - 1;
      NotAFreeHeader(base, top, free, live, b);
      var p, g := FindGap(bp);
      hide Layout, Outside, Node;
      CoalesceLayout(base, top, free, live, b, g);
      forall u ensures Covers(Coalesce(free, g, b), u) <==> Covers(free, u) || Within(b, u) {
        CoalesceCovers(base, free, g, b, u);
      }
      LiveHeadersApart(base, top, free, live, b, g);
      InsertAfter(p, bp, g, b);
      free := Coalesce(free, g, b);
      freep := p;
    }

    /** free, for a block that malloc handed out. */
    method Free(ap: int, ghost k: nat)
      requires Valid() && k < |live| && live[k].a == ap - 1
      modifies this`ptr, this`size, this`freep, this`free, this`live
      ensures Valid()
      ensures live == Splice(old(live), k, k + 1, [])
      ensures forall u :: Covers(free, u) <==> old(Covers(free, u)) || Within(old(live)[k], u)
    {
      ghost var b := live[k];
      WithoutLive(base, top, free, live, size, k);
      SumWithoutLive(live, k);
      hide Layout, Outside, Threaded, Cursor, Covers, Sum;
      live := Splice(live, k, k + 1, []);
      Insert(ap, b);
    }

    /** morecore; `more` is sbrk's answer, None for SBRK_ERROR. */
    method Morecore(nunits: nat, more: Option<int>) returns (r: int)
      requires Valid() && freep != 0 && (more.Some? ==> top <= more.value)
      modifies this`ptr, this`size, this`freep, this`free, this`top, this`total
      ensures Valid() && freep != 0
      ensures more.None? ==> r == 0 && free == old(free) && freep == old(freep) && total == old(total)
      ensures more.Some? ==>
        && r == freep && HasRoom(free, nunits) && total == old(total) + Max(nunits, MINUNITS)
        && forall u :: Covers(free, u) <==> old(Covers(free, u)) || Within(Blk(more.value, Max(nunits, MINUNITS)), u)
    {
      var nu := nunits;
      if nu < MINUNITS {
        nu := MINUNITS;
      }
      if more.None? {
        return 0;
      }
      var hp := more.value;
      ghost var b := Blk(hp, nu);
      AboveTopIsOutside(base, top, free, live, b);
      HeaderAboveTop(hp, nu);
      hide Layout, Outside, Threaded, Cursor, Covers, Sum, Sized, HasRoom;
      size := size[hp := nu];
      top, total := hp + nu, total + nu;
      Insert(hp + 1, b);
      r := freep;
    }

    /** A header above top is in no list. */
    lemma HeaderAboveTop(hp: int, n: nat)
      requires Valid() && freep != 0 && top <= hp
      ensures Threaded(base, free, ptr, size[hp := n]) && Sized(live, size[hp := n])
    {
      var size' := size[hp := n];
      forall i | 0 <= i <= |free| ensures NodeOk(base, free, ptr, size', i) {
        assert NodeOk(base, free, ptr, size, i);
      }
    }

    /** malloc's first-call setup. */
    method Setup()
      requires Valid()
      modifies this`ptr, this`size, this`freep
      ensures Valid() && freep != 0 && size.Keys >= old(size).Keys
      ensures old(freep) != 0 ==> ptr == old(ptr) && size == old(size) && freep == old(freep)
    {
      if freep == 0 {
        freep := base;
        ptr := ptr[base := base];
        size := size[base := 0];
        assert NodeOk(base, free, ptr, size, 0);
        assert Node(base, free, 0) == freep;
      }
    }

    /** malloc's cut, from node f + 1, the successor of prevp. */
    method Take(prevp: int, p: int, nunits: nat, ghost f: nat) returns (r: int)
      requires Valid() && freep != 0 && f < |free| && prevp == Node(base, free, f) && p == free[f].a
      requires 0 < nunits <= free[f].n
      modifies this`ptr, this`size, this`freep, this`free, this`live
      ensures Valid() && freep == prevp
      ensures free == Carve(old(free), f, nunits) && live == old(live) + [Blk(r - 1, nunits)]
      ensures r - 1 == old(free)[f].a + old(free)[f].n - nunits
    {
      hide Layout, Threaded, Cursor, Sum, Carve, Sized;
      TakeKeepsHeap(base, top, free, live, ptr, size, f, nunits);
      ghost var cut := Cut(free[f], nunits);
      var q := p;
      if size[p] == nunits {
        ptr := ptr[prevp := ptr[p]];
      } else {
        size := size[p := size[p] - nunits];
        q := p + size[p];
        size := size[q := nunits];
      }
      free, live := Carve(free, f, nunits), live + [cut];
      freep := prevp;
      r := q + 1;
    }

    /**
     One lap of malloc's loop, from freep back to freep: the first node that is
     large enough, with its predecessor.
     */
    method Search(nunits: nat) returns (found: bool, prevp: int, p: int, ghost f: nat)
      requires Valid() && freep != 0 && nunits > 0
      ensures found <==> HasRoom(free, nunits)
      ensures found ==> f < |free| && prevp == Node(base, free, f) && p == free[f].a && free[f].n >= nunits
    {
      hide Layout, Sum, Sized, Tried, HasRoom;
      prevp := freep;
      ghost var s :| 0 <= s <= |free| && Node(base, free, s) == freep;
      assert NodeOk(base, free, ptr, size, s);
      p := ptr[prevp];
      ghost var t := 0;
      f := 0;
      TriedNone(free, s, nunits);
      while true
        invariant 0 <= t <= |free|
        invariant prevp == Node(base, free, Cyclic(|free|, s, t)) && p == Node(base, free, Cyclic(|free|, s, t + 1))
        invariant Tried(free, s, t, nunits)
        decreases |free| - t
      {
        ghost var i := Cyclic(|free|, s, t + 1);
        assert NodeOk(base, free, ptr, size, i);
        if size[p] >= nunits {
          f := i - 1;
          RoomAt(free, f, nunits);
          return true, prevp, p, f;
        }
        TriedOneMore(free, s, t, nunits);
        if p == freep {
          OnlyOneNode(s, i);
          TriedAll(free, s, nunits);
          return false, prevp, p, f;
        }
        prevp := p;
        p := ptr[p];
        t := t + 1;
      }
    }

    lemma OnlyOneNode(i: nat, j: nat)
      requires Valid() && i <= |free| && j <= |free| && Node(base, free, i) == Node(base, free, j)
      ensures i == j
    {
      NodesDistinct(base, free, i, j);
    }

    /**
     malloc; `more` is what sbrk answers if it is called.  The result's block
     comes from the free list or, when no free block is large enough, from the
     memory sbrk returned; None exactly when there is neither.
     */
    method Malloc(nbytes: nat, more: Option<int>) returns (r: Option<int>)
      requires Valid() && nbytes <= MAXREQUEST && (more.Some? ==> top <= more.value)
      modifies this
      ensures Valid()
      ensures r.None? <==> !old(HasRoom(free, Units(nbytes))) && more.None?
      ensures r.None? ==> live == old(live) && free == old(free) && total == old(total)
      ensures r.Some? ==> live == old(live) + [Blk(r.value - 1, Units(nbytes))]
      ensures r.Some? && old(HasRoom(free, Units(nbytes))) ==>
        && total == old(total)
        && forall u :: old(Covers(free, u)) <==> Covers(free, u) || Within(Blk(r.value - 1, Units(nbytes)), u)
      ensures r.Some? && !old(HasRoom(free, Units(nbytes))) ==>
        && total == old(total) + Max(Units(nbytes), MINUNITS)
        && forall u :: old(Covers(free, u)) || Within(Blk(more.value, Max(Units(nbytes), MINUNITS)), u)
                       <==> Covers(free, u) || Within(Blk(r.value - 1, Units(nbytes)), u)
    {
      hide Layout, Threaded, Sum, Sized, Covers, Carve, HasRoom, Cursor;
      var nunits := (nbytes + HEADER - 1) / HEADER + 1;
      Setup();
      var found, prevp, p, f := Search(nunits);
      if !found {
        p := Morecore(nunits, more);
        if p == 0 {
          return None;
        }
        found, prevp, p, f := Search(nunits);
      }
      CarveCoversAll(f, nunits);
      var q := Take(prevp, p, nunits, f);
      r := Some(q);
    }

    lemma CarveCoversAll(f: nat, m: nat)
      requires Valid() && f < |free| && m <= free[f].n
      ensures forall u :: Covers(free, u) <==> Covers(Carve(free, f, m), u) || Within(Cut(free[f], m), u)
    {
      forall u ensures Covers(free, u) <==> Covers(Carve(free, f, m), u) || Within(Cut(free[f], m), u) {
        CarveCovers(base, free, f, m, u);
      }
    }
  }
}
