/**
 The free list of umalloc.c as a value.  Addresses count header-sized units.
 A block is its header's address and its size in units, header included.
 */
module FreeList {
  datatype Blk = Blk(a: int, n: nat)

  predicate Within(b: Blk, u: int) {
    b.a <= u < b.a + b.n
  }

  predicate Disjoint(x: Blk, y: Blk) {
    x.a + x.n <= y.a || y.a + y.n <= x.a
  }

  /** Address-ordered, no empty block, no two blocks touching, all above the sentinel. */
  predicate Apart(base: int, free: seq<Blk>) {
    && (forall i :: 0 <= i < |free| ==> base < free[i].a && free[i].n > 0)
    && (forall i, j :: 0 <= i < j < |free| ==> free[i].a + free[i].n < free[j].a)
  }

  predicate AllDisjoint(blocks: seq<Blk>) {
    forall i, j :: 0 <= i < j < |blocks| ==> Disjoint(blocks[i], blocks[j])
  }

  predicate Separate(xs: seq<Blk>, ys: seq<Blk>) {
    forall i, j :: 0 <= i < |xs| && 0 <= j < |ys| ==> Disjoint(xs[i], ys[j])
  }

  /** Unit u belongs to some block of the list. */
  ghost predicate Covers(blocks: seq<Blk>, u: int) {
    exists i :: 0 <= i < |blocks| && Within(blocks[i], u)
  }

  function Sum(blocks: seq<Blk>): nat {
    if blocks == [] then 0 else Sum(blocks[..|blocks| - 1]) + blocks[|blocks| - 1].n
  }

  lemma {:induction false} SumConcat(x: seq<Blk>, y: seq<Blk>)
    ensures Sum(x + y) == Sum(x) + Sum(y)
  {
    if y == [] {
      assert x + y == x;
    } else {
      assert (x + y)[..|x + y| - 1] == x + y[..|y| - 1];
      SumConcat(x, y[..|y| - 1]);
    }
  }

  /** blocks[i..j] replaced by `mid`. */
  function Splice(blocks: seq<Blk>, i: nat, j: nat, mid: seq<Blk>): seq<Blk>
    requires i <= j <= |blocks|
  {
    blocks[..i] + mid + blocks[j..]
  }

  lemma SumSplice(blocks: seq<Blk>, i: nat, j: nat, mid: seq<Blk>)
    requires i <= j <= |blocks|
    ensures Sum(Splice(blocks, i, j, mid)) + Sum(blocks[i..j]) == Sum(blocks) + Sum(mid)
  {
    SumConcat(blocks[..i] + mid, blocks[j..]);
    SumConcat(blocks[..i], mid);
    assert blocks == blocks[..i] + blocks[i..j] + blocks[j..];
    SumConcat(blocks[..i] + blocks[i..j], blocks[j..]);
    SumConcat(blocks[..i], blocks[i..j]);
  }

  lemma SumOne(b: Blk)
    ensures Sum([b]) == b.n
  {
    assert [b][..0] == [];
  }

  lemma SumTwo(b: Blk, c: Blk)
    ensures Sum([b, c]) == b.n + c.n
  {
    assert [b, c][..1] == [b];
    SumOne(b);
  }

  /** A list in this form is determined by the units it covers. */
  lemma {:induction false} CanonicalForm(base: int, x: seq<Blk>, y: seq<Blk>)
    requires Apart(base, x) && Apart(base, y)
    requires forall u :: Covers(x, u) <==> Covers(y, u)
    ensures x == y
    decreases |x|
  {
    if x == [] {
      if y != [] { HeadCovered(base, y); }
    } else {
      HeadCovered(base, x);
      assert y != [];
      FirstBlocksAgree(base, x, y);
      TailsCoverAlike(base, x, y);
      hide Covers;
      CanonicalForm(base, x[1..], y[1..]);
      assert x == [x[0]] + x[1..] && y == [y[0]] + y[1..];
    }
  }

  lemma HeadCovered(base: int, x: seq<Blk>)
    requires Apart(base, x) && x != []
    ensures Covers(x, x[0].a)
  {
    assert Within(x[0], x[0].a);
  }

  lemma TailsCoverAlike(base: int, x: seq<Blk>, y: seq<Blk>)
    requires Apart(base, x) && Apart(base, y) && x != [] && y != [] && x[0] == y[0]
    requires forall u :: Covers(x, u) <==> Covers(y, u)
    ensures forall u :: Covers(x[1..], u) <==> Covers(y[1..], u)
  {
    hide Covers, Apart;
    forall u ensures Covers(x[1..], u) <==> Covers(y[1..], u) {
      CoversTail(base, x, u);
      CoversTail(base, y, u);
    }
  }

  lemma CoversTail(base: int, x: seq<Blk>, u: int)
    requires Apart(base, x) && x != []
    ensures Covers(x[1..], u) <==> Covers(x, u) && !Within(x[0], u)
  {
    if Covers(x, u) && !Within(x[0], u) {
      var i :| 0 <= i < |x| && Within(x[i], u);
      assert Within(x[1..][i - 1], u);
    }
    if Covers(x[1..], u) {
      var i :| 0 <= i < |x[1..]| && Within(x[1..][i], u);
      assert Within(x[i + 1], u);
    }
  }

  lemma FirstBlocksAgree(base: int, x: seq<Blk>, y: seq<Blk>)
    requires Apart(base, x) && Apart(base, y) && x != [] && y != []
    requires forall u :: Covers(x, u) <==> Covers(y, u)
    ensures x[0] == y[0]
  {
    assert Within(x[0], x[0].a) && Covers(x, x[0].a);
    assert Within(y[0], y[0].a) && Covers(y, y[0].a);
    assert x[0].a == y[0].a by {
      var i :| 0 <= i < |y| && Within(y[i], x[0].a);
      var j :| 0 <= j < |x| && Within(x[j], y[0].a);
    }
    EndOfFirst(base, x);
    EndOfFirst(base, y);
    assert Within(y[0], x[0].a + x[0].n) <==> x[0].n < y[0].n;
    assert Within(x[0], y[0].a + y[0].n) <==> y[0].n < x[0].n;
  }

  lemma EndOfFirst(base: int, x: seq<Blk>)
    requires Apart(base, x) && x != []
    ensures !Covers(x, x[0].a + x[0].n)
  {
  }

  /** bp falls between free[g - 1] and free[g]. */
  predicate GapAt(base: int, free: seq<Blk>, bp: int, g: nat) {
    && g <= |free| && base < bp
    && (forall i :: 0 <= i < g ==> free[i].a < bp)
    && (forall i :: g <= i < |free| ==> bp < free[i].a)
  }

  predicate JoinsNext(free: seq<Blk>, g: nat, b: Blk) {
    g < |free| && b.a + b.n == free[g].a
  }

  predicate JoinsPrevious(free: seq<Blk>, g: nat, b: Blk) {
    0 < g <= |free| && free[g - 1].a + free[g - 1].n == b.a
  }

  /** The block that b becomes, and the part of the list it replaces. */
  function Merged(free: seq<Blk>, g: nat, b: Blk): Blk
  {
    var upper := if JoinsNext(free, g, b) then Blk(b.a, b.n + free[g].n) else b;
    if JoinsPrevious(free, g, b) then Blk(free[g - 1].a, free[g - 1].n + upper.n) else upper
  }

  function From(free: seq<Blk>, g: nat, b: Blk): nat {
    if JoinsPrevious(free, g, b) then g - 1 else g
  }

  function To(free: seq<Blk>, g: nat, b: Blk): nat {
    if JoinsNext(free, g, b) then g + 1 else g
  }

  /** The list after b has been freed. */
  function Coalesce(free: seq<Blk>, g: nat, b: Blk): seq<Blk>
    requires g <= |free|
  {
    Splice(free, From(free, g, b), To(free, g, b), [Merged(free, g, b)])
  }

  lemma SpliceApart(base: int, free: seq<Blk>, i: nat, j: nat, b: Blk)
    requires Apart(base, free) && i <= j <= |free| && base < b.a && b.n > 0
    requires i > 0 ==> free[i - 1].a + free[i - 1].n < b.a
    requires j < |free| ==> b.a + b.n < free[j].a
    ensures Apart(base, Splice(free, i, j, [b]))
  {
  }

  lemma CoalesceApart(base: int, free: seq<Blk>, g: nat, b: Blk)
    requires Apart(base, free) && GapAt(base, free, b.a, g) && b.n > 0 && Separate(free, [b])
    ensures Apart(base, Coalesce(free, g, b))
  {
    if g > 0 { assert Disjoint(free[g - 1], [b][0]); }
    if g < |free| { assert Disjoint(free[g], [b][0]); }
    SpliceApart(base, free, From(free, g, b), To(free, g, b), Merged(free, g, b));
  }

  lemma SpliceCovers(free: seq<Blk>, i: nat, j: nat, mid: seq<Blk>, u: int)
    requires i <= j <= |free|
    ensures Covers(Splice(free, i, j, mid), u) <==> Covers(free[..i], u) || Covers(mid, u) || Covers(free[j..], u)
  {
    ConcatCovers(free[..i] + mid, free[j..], u);
    ConcatCovers(free[..i], mid, u);
  }

  lemma ConcatCovers(x: seq<Blk>, y: seq<Blk>, u: int)
    ensures Covers(x + y, u) <==> Covers(x, u) || Covers(y, u)
  {
    if Covers(x, u) {
      var i :| 0 <= i < |x| && Within(x[i], u);
      assert Within((x + y)[i], u);
    }
    if Covers(y, u) {
      var i :| 0 <= i < |y| && Within(y[i], u);
      assert Within((x + y)[|x| + i], u);
    }
  }

  lemma OneCovers(b: Blk, u: int)
    ensures Covers([b], u) <==> Within(b, u)
  {
    if Within(b, u) { assert Within([b][0], u); }
  }

  /** The blocks that b is merged with. */
  function Absorbed(free: seq<Blk>, g: nat, b: Blk): seq<Blk>
    requires g <= |free|
  {
    free[From(free, g, b)..To(free, g, b)]
  }

  lemma AbsorbedParts(free: seq<Blk>, g: nat, b: Blk)
    requires g <= |free|
    ensures Absorbed(free, g, b) == (if JoinsPrevious(free, g, b) then [free[g - 1]] else [])
                                    + (if JoinsNext(free, g, b) then [free[g]] else [])
  {
  }

  lemma AbsorbedCovers(base: int, free: seq<Blk>, g: nat, b: Blk, u: int)
    requires Apart(base, free) && GapAt(base, free, b.a, g)
    ensures Within(Merged(free, g, b), u) <==> Covers(Absorbed(free, g, b), u) || Within(b, u)
  {
    AbsorbedParts(free, g, b);
    if JoinsPrevious(free, g, b) { OneCovers(free[g - 1], u); }
    if JoinsNext(free, g, b) { OneCovers(free[g], u); }
    ConcatCovers(if JoinsPrevious(free, g, b) then [free[g - 1]] else [],
                 if JoinsNext(free, g, b) then [free[g]] else [], u);
  }

  lemma AbsorbedSum(free: seq<Blk>, g: nat, b: Blk)
    requires g <= |free|
    ensures Merged(free, g, b).n == Sum(Absorbed(free, g, b)) + b.n
  {
    AbsorbedParts(free, g, b);
    if JoinsPrevious(free, g, b) && JoinsNext(free, g, b) {
      SumTwo(free[g - 1], free[g]);
    } else if JoinsPrevious(free, g, b) {
      SumOne(free[g - 1]);
    } else if JoinsNext(free, g, b) {
      SumOne(free[g]);
    }
  }

  /** Freeing b adds exactly b's units. */
  lemma CoalesceCovers(base: int, free: seq<Blk>, g: nat, b: Blk, u: int)
    requires Apart(base, free) && GapAt(base, free, b.a, g)
    ensures Covers(Coalesce(free, g, b), u) <==> Covers(free, u) || Within(b, u)
  {
    hide Covers, Merged, From, To, Apart, JoinsNext, JoinsPrevious;
    RangeOk(free, g, b);
    var i, j, m := From(free, g, b), To(free, g, b), Merged(free, g, b);
    SpliceCovers(free, i, j, [m], u);
    OneCovers(m, u);
    assert Splice(free, i, j, free[i..j]) == free;
    SpliceCovers(free, i, j, free[i..j], u);
    AbsorbedCovers(base, free, g, b, u);
  }

  lemma RangeOk(free: seq<Blk>, g: nat, b: Blk)
    requires g <= |free|
    ensures From(free, g, b) <= To(free, g, b) <= |free|
  {
  }

  lemma CoalesceSum(free: seq<Blk>, g: nat, b: Blk)
    requires g <= |free|
    ensures Sum(Coalesce(free, g, b)) == Sum(free) + b.n
  {
    hide Sum, Merged, From, To, JoinsNext, JoinsPrevious;
    RangeOk(free, g, b);
    SumSplice(free, From(free, g, b), To(free, g, b), [Merged(free, g, b)]);
    SumOne(Merged(free, g, b));
    AbsorbedSum(free, g, b);
  }

  lemma CoalesceSeparate(free: seq<Blk>, g: nat, b: Blk, live: seq<Blk>)
    requires g <= |free| && Separate(free, live) && Separate([b], live)
    requires forall k :: 0 <= k < |live| ==> live[k].n > 0
    ensures Separate(Coalesce(free, g, b), live)
  {
    var c := Coalesce(free, g, b);
    forall i, k | 0 <= i < |c| && 0 <= k < |live| ensures Disjoint(c[i], live[k]) {
      assert Disjoint([b][0], live[k]);
      if g > 0 { assert Disjoint(free[g - 1], live[k]); }
      if g < |free| { assert Disjoint(free[g], live[k]); }
    }
  }

  /** malloc's choice: m units cut from the tail of free[f], or the whole block if it fits exactly. */
  function Remainder(b: Blk, m: nat): seq<Blk>
    requires m <= b.n
  {
    if b.n == m then [] else [Blk(b.a, b.n - m)]
  }

  function Cut(b: Blk, m: nat): Blk
    requires m <= b.n
  {
    Blk(b.a + b.n - m, m)
  }

  function Carve(free: seq<Blk>, f: nat, m: nat): seq<Blk>
    requires f < |free| && m <= free[f].n
  {
    Splice(free, f, f + 1, Remainder(free[f], m))
  }

  lemma CarveApart(base: int, free: seq<Blk>, f: nat, m: nat)
    requires Apart(base, free) && f < |free| && 0 < m <= free[f].n
    ensures Apart(base, Carve(free, f, m))
  {
  }

  lemma CarveSeparate(base: int, free: seq<Blk>, f: nat, m: nat, live: seq<Blk>)
    requires Apart(base, free) && Separate(free, live) && f < |free| && 0 < m <= free[f].n
    ensures Separate(Carve(free, f, m), live) && Separate(live, [Cut(free[f], m)])
    ensures Separate(Carve(free, f, m), [Cut(free[f], m)])
  {
    var c := Carve(free, f, m);
    forall i, k | 0 <= i < |c| && 0 <= k < |live| ensures Disjoint(c[i], live[k]) {
      var from := if i < f then i else if m < free[f].n then i else i + 1;
      assert Disjoint(free[from], live[k]);
    }
    forall k | 0 <= k < |live| ensures Disjoint(live[k], Cut(free[f], m)) {
      assert Disjoint(free[f], live[k]);
    }
  }

  lemma CarveSum(free: seq<Blk>, f: nat, m: nat)
    requires f < |free| && m <= free[f].n
    ensures Sum(Carve(free, f, m)) + m == Sum(free)
  {
    SumSplice(free, f, f + 1, Remainder(free[f], m));
    assert free[f..f + 1] == [free[f]];
    SumOne(free[f]);
    if m < free[f].n { SumOne(Blk(free[f].a, free[f].n - m)); }
  }

  /** Exactly the units of the block handed out leave the free list. */
  lemma CarveCovers(base: int, free: seq<Blk>, f: nat, m: nat, u: int)
    requires Apart(base, free) && f < |free| && m <= free[f].n
    ensures Covers(free, u) <==> Covers(Carve(free, f, m), u) || Within(Cut(free[f], m), u)
  {
    hide Covers, Apart;
    SpliceCovers(free, f, f + 1, Remainder(free[f], m), u);
    assert Splice(free, f, f + 1, [free[f]]) == free;
    SpliceCovers(free, f, f + 1, [free[f]], u);
    OneCovers(free[f], u);
    RemainderCovers(free[f], m, u);
  }

  lemma RemainderCovers(b: Blk, m: nat, u: int)
    requires m <= b.n
    ensures Within(b, u) <==> Covers(Remainder(b, m), u) || Within(Cut(b, m), u)
  {
    if m < b.n { OneCovers(Blk(b.a, b.n - m), u); }
  }

  lemma AppendDisjoint(live: seq<Blk>, b: Blk)
    requires AllDisjoint(live) && Separate(live, [b])
    ensures AllDisjoint(live + [b])
  {
    forall i | 0 <= i < |live| ensures Disjoint(live[i], b) {
      assert Disjoint(live[i], [b][0]);
    }
  }
}
