/**
 Physical memory as pages of 512 words, and who owns each page.  The owner map
 is the bookkeeping the source leaves implicit: page-table pages form a tree
 with no sharing, and a user page is mapped by one entry.
 */
module PageTable {
  import opened Wrappers
  import opened Sv39

  const HALF := 256    // entries of a root that lie below MAXVA

  type Mem = map<nat, seq<nat>>

  /** Each owner names the entry that refers to the page. */
  datatype Owner =
    | Free                       // on kalloc's list
    | Root                       // a top-level table
    | Mid(root: nat, i: nat)     // entry i of the root
    | Low(mid: nat, i: nat)      // entry i of a middle table
    | User(low: nat, i: nat)     // entry i of a bottom table
    | Other                      // in the hands of kernel code

  type Owners = map<nat, Owner>

  predicate IsTable(o: Owner) { o.Root? || o.Mid? || o.Low? }

  ghost predicate WholePages(mem: Mem) {
    forall p :: p in mem ==> |mem[p]| == ENTRIES && p % PGSIZE == 0 && p > 0
  }

  function Entry(mem: Mem, p: nat, i: nat): nat {
    if p in mem && i < |mem[p]| then mem[p][i] else 0
  }

  /** The page a valid entry refers to, 0 if the entry is not valid. */
  function Child(mem: Mem, p: nat, i: nat): nat {
    if V(Entry(mem, p, i)) then Pa(Entry(mem, p, i)) else 0
  }

  /** The slots of TRAMPOLINE and TRAPFRAME, whose pages the table does not own. */
  predicate Special(own: Owners, l: nat, i: nat) {
    && l in own && own[l].Low? && own[l].i == 511 && i >= 510
    && own[l].mid in own && own[own[l].mid].Mid? && own[own[l].mid].i == 255
  }

  ghost predicate Refers(mem: Mem, p: nat, i: nat, child: nat) {
    i < ENTRIES && V(Entry(mem, p, i)) && Pa(Entry(mem, p, i)) == child
  }

  /** A page that claims to be referred to is. */
  ghost predicate UpOk(mem: Mem, own: Owners, p: nat)
    requires p in own
  {
    match own[p]
    case Mid(r, i) => r in own && own[r].Root? && i < HALF && Refers(mem, r, i, p)
    case Low(m, i) => m in own && own[m].Mid? && Refers(mem, m, i, p)
    case User(l, i) => l in own && own[l].Low? && Refers(mem, l, i, p) && !Special(own, l, i)
    case _ => true
  }

  /** What entry i of page p may refer to. */
  ghost predicate DownOk(mem: Mem, own: Owners, p: nat, i: nat)
    requires p in own
  {
    var pte := Entry(mem, p, i);
    V(pte) ==>
      match own[p]
      case Root => Pointer(pte) && Pa(pte) in own && own[Pa(pte)] == Mid(p, i)
      case Mid(_, _) => Pointer(pte) && Pa(pte) in own && own[Pa(pte)] == Low(p, i)
      case Low(_, _) => Special(own, p, i) || (Pa(pte) in own && own[Pa(pte)] == User(p, i))
      case _ => true
  }

  ghost predicate Tables(mem: Mem, own: Owners) {
    && mem.Keys == own.Keys
    && WholePages(mem)
    && (forall p :: p in own ==> UpOk(mem, own, p))
    && (forall p, i :: p in own && 0 <= i < ENTRIES ==> DownOk(mem, own, p, i))
  }

  ghost predicate IsRoot(own: Owners, r: nat) {
    r in own && own[r].Root?
  }

  // The walk.

  function MidPage(mem: Mem, r: nat, page: nat): nat { Child(mem, r, Px(2, page)) }

  function LowPage(mem: Mem, r: nat, page: nat): nat { Child(mem, MidPage(mem, r, page), Px(1, page)) }

  function Leaf(mem: Mem, r: nat, page: nat): nat { Entry(mem, LowPage(mem, r, page), Px(0, page)) }

  /** The flat page map that the tree stands for: physical address and flags. */
  function Xlate(mem: Mem, r: nat, page: nat): Option<(nat, nat)> {
    var pte := Leaf(mem, r, page);
    if V(pte) then Some((Pa(pte), Flags(pte))) else None
  }

  /** Every address space under own translates alike in mem and mem'. */
  ghost predicate SameXlate(mem: Mem, mem': Mem, own: Owners) {
    forall r, page :: IsRoot(own, r) && 0 <= page < PAGES ==> Xlate(mem', r, page) == Xlate(mem, r, page)
  }

  lemma ChildOwner(mem: Mem, own: Owners, p: nat, i: nat)
    requires Tables(mem, own) && p in own && i < ENTRIES && V(Entry(mem, p, i))
    requires own[p].Root? || own[p].Mid?
    ensures Child(mem, p, i) in own
    ensures own[Child(mem, p, i)] == if own[p].Root? then Mid(p, i) else Low(p, i)
  {
    assert DownOk(mem, own, p, i);
  }

  lemma PagesPositive(mem: Mem, own: Owners, p: nat)
    requires Tables(mem, own) && p in own
    ensures p > 0 && p % PGSIZE == 0 && p in mem && |mem[p]| == ENTRIES
  {
  }

  lemma ZeroIsNoPage(mem: Mem, own: Owners)
    requires Tables(mem, own)
    ensures forall i :: Entry(mem, 0, i) == 0
  {
    assert 0 !in mem;
  }

  /** A path that reaches a bottom table determines the root and the upper indices. */
  lemma PathOwner(mem: Mem, own: Owners, r: nat, page: nat)
    requires Tables(mem, own) && IsRoot(own, r)
    ensures var m := MidPage(mem, r, page);
            m == 0 || (m in own && own[m] == Mid(r, Px(2, page)))
    ensures var m, l := MidPage(mem, r, page), LowPage(mem, r, page);
            l == 0 || (m != 0 && l in own && own[l] == Low(m, Px(1, page)))
    ensures 0 !in own
  {
    var m := MidPage(mem, r, page);
    if V(Entry(mem, r, Px(2, page))) {
      ChildOwner(mem, own, r, Px(2, page));
      if V(Entry(mem, m, Px(1, page))) {
        ChildOwner(mem, own, m, Px(1, page));
      }
    }
  }

  lemma SamePath(mem: Mem, own: Owners, r: nat, page: nat, r': nat, page': nat)
    requires Tables(mem, own) && IsRoot(own, r) && IsRoot(own, r') && page < PAGES && page' < PAGES
    requires LowPage(mem, r, page) == LowPage(mem, r', page') != 0 && Px(0, page) == Px(0, page')
    ensures r == r' && page == page'
  {
    PathOwner(mem, own, r, page);
    PathOwner(mem, own, r', page');
    PxInjective(page, page');
  }

  // Changes to memory, and what each leaves alone.

  /** Table pages are the same in both memories. */
  ghost predicate TablesAgree(mem: Mem, mem': Mem, own: Owners) {
    forall t :: t in own && IsTable(own[t]) ==> t in mem && t in mem' && mem'[t] == mem[t]
  }

  lemma AgreeSameLookup(mem: Mem, mem': Mem, own: Owners, r: nat, page: nat)
    requires Tables(mem, own) && IsRoot(own, r) && TablesAgree(mem, mem', own) && mem'.Keys == mem.Keys
    ensures MidPage(mem', r, page) == MidPage(mem, r, page)
    ensures LowPage(mem', r, page) == LowPage(mem, r, page)
    ensures Leaf(mem', r, page) == Leaf(mem, r, page)
  {
    PathOwner(mem, own, r, page);
  }

  lemma AgreeSameXlate(mem: Mem, mem': Mem, own: Owners)
    requires Tables(mem, own) && TablesAgree(mem, mem', own) && mem'.Keys == mem.Keys
    ensures SameXlate(mem, mem', own)
  {
    forall r, page | IsRoot(own, r) && 0 <= page < PAGES ensures Xlate(mem', r, page) == Xlate(mem, r, page) {
      AgreeSameLookup(mem, mem', own, r, page);
    }
  }

  /** The contents of a page that is not a table do not matter to the tables. */
  lemma DataChange(mem: Mem, own: Owners, p: nat, content: seq<nat>)
    requires Tables(mem, own) && p in own && !IsTable(own[p]) && |content| == ENTRIES
    ensures Tables(mem[p := content], own)
    ensures SameXlate(mem, mem[p := content], own)
  {
    var mem' := mem[p := content];
    forall q | q in own ensures UpOk(mem', own, q) {
      assert UpOk(mem, own, q);
    }
    forall q, i | q in own && 0 <= i < ENTRIES ensures DownOk(mem', own, q, i) {
      assert DownOk(mem, own, q, i);
    }
    AgreeSameXlate(mem, mem', own);
  }

  predicate Unreferenced(o: Owner) { o.Free? || o.Other? }

  /** kalloc and kfree change the owner of a page that nothing refers to. */
  lemma OwnerChange(mem: Mem, own: Owners, p: nat, o: Owner)
    requires Tables(mem, own) && p in own && Unreferenced(own[p]) && Unreferenced(o)
    ensures Tables(mem, own[p := o])
  {
    var own' := own[p := o];
    forall q | q in own' ensures UpOk(mem, own', q) {
      assert UpOk(mem, own, q);
    }
    forall q, i | q in own' && 0 <= i < ENTRIES ensures DownOk(mem, own', q, i) {
      assert DownOk(mem, own, q, i);
    }
  }

  /** An entry of a table page is written. */
  function SetEntry(mem: Mem, p: nat, i: nat, pte: nat): Mem
    requires p in mem && i < |mem[p]|
  {
    var page: seq<nat> := mem[p][i := pte];
    mem[p := page]
  }

  lemma SetEntryAt(mem: Mem, p: nat, i: nat, pte: nat, q: nat, j: nat)
    requires p in mem && i < |mem[p]|
    ensures Entry(SetEntry(mem, p, i, pte), q, j) == if q == p && j == i then pte else Entry(mem, q, j)
  {
  }

  /** No entry of the page is valid. */
  ghost predicate Blank(mem: Mem, p: nat) {
    forall i :: 0 <= i < ENTRIES ==> !V(Entry(mem, p, i))
  }

  function ChildOf(own: Owners, p: nat, i: nat): Owner
    requires p in own
  {
    if own[p].Root? then Mid(p, i) else Low(p, i)
  }

  /** walk's allocation: a blank page c goes under an empty entry of an upper table. */
  lemma AddTable(mem: Mem, own: Owners, p: nat, i: nat, c: nat)
    requires Tables(mem, own) && p in own && (own[p].Root? || own[p].Mid?)
      && i < (if own[p].Root? then HALF else ENTRIES)
    requires c in own && own[c].Other? && Blank(mem, c) && !V(Entry(mem, p, i))
    ensures Tables(SetEntry(mem, p, i, MakePte(c, 0)), own[c := ChildOf(own, p, i)])
  {
    MakePteRoundTrip(c, 0);
    var mem', own' := SetEntry(mem, p, i, MakePte(c, 0)), own[c := ChildOf(own, p, i)];
    assert WholePages(mem');
    forall q | q in own' ensures UpOk(mem', own', q) {
      assert UpOk(mem, own, q);
      AddTableUp(mem, own, p, i, c, q);
    }
    forall q, j | q in own' && 0 <= j < ENTRIES ensures DownOk(mem', own', q, j) {
      assert DownOk(mem, own, q, j);
      SetEntryAt(mem, p, i, MakePte(c, 0), q, j);
      if q == c { assert !V(Entry(mem, c, j)); }
    }
  }

  lemma AddTableUp(mem: Mem, own: Owners, p: nat, i: nat, c: nat, q: nat)
    requires Tables(mem, own) && p in own && (own[p].Root? || own[p].Mid?)
      && i < (if own[p].Root? then HALF else ENTRIES)
    requires c in own && own[c].Other? && q in own && UpOk(mem, own, q) && !V(Entry(mem, p, i))
    ensures UpOk(SetEntry(mem, p, i, MakePte(c, 0)), own[c := ChildOf(own, p, i)], q)
  {
    MakePteRoundTrip(c, 0);
    var mem', own' := SetEntry(mem, p, i, MakePte(c, 0)), own[c := ChildOf(own, p, i)];
    match own'[q] {
      case Mid(r, j) => SetEntryAt(mem, p, i, MakePte(c, 0), r, j);
      case Low(m, j) => SetEntryAt(mem, p, i, MakePte(c, 0), m, j);
      case User(l, j) => SetEntryAt(mem, p, i, MakePte(c, 0), l, j);
      case _ =>
    }
  }

  /** A new blank table changes no translation. */
  lemma AddTableSameXlate(mem: Mem, own: Owners, p: nat, i: nat, c: nat, r: nat, page: nat)
    requires Tables(mem, own) && p in own && (own[p].Root? || own[p].Mid?)
      && i < (if own[p].Root? then HALF else ENTRIES)
    requires c in own && own[c].Other? && Blank(mem, c) && !V(Entry(mem, p, i)) && IsRoot(own, r)
    ensures Xlate(SetEntry(mem, p, i, MakePte(c, 0)), r, page) == Xlate(mem, r, page)
  {
    MakePteRoundTrip(c, 0);
    PathOwner(mem, own, r, page);
    var mem', m, l := SetEntry(mem, p, i, MakePte(c, 0)), MidPage(mem, r, page), LowPage(mem, r, page);
    SetEntryAt(mem, p, i, MakePte(c, 0), r, Px(2, page));
    SetEntryAt(mem, p, i, MakePte(c, 0), m, Px(1, page));
    SetEntryAt(mem, p, i, MakePte(c, 0), l, Px(0, page));
    if r == p && Px(2, page) == i {
      assert MidPage(mem', r, page) == c;
      SetEntryAt(mem, p, i, MakePte(c, 0), c, Px(1, page));
      assert !V(Entry(mem', c, Px(1, page)));
    } else {
      assert MidPage(mem', r, page) == m;
      if m == p && Px(1, page) == i {
        assert LowPage(mem', r, page) == c;
        SetEntryAt(mem, p, i, MakePte(c, 0), c, Px(0, page));
        assert !V(Entry(mem', c, Px(0, page)));
      }
    }
  }

  /** Writing an entry of a bottom table changes the translations that end there, and no other. */
  lemma LeafSetLookup(mem: Mem, own: Owners, l: nat, i: nat, pte: nat, r: nat, page: nat)
    requires Tables(mem, own) && l in own && own[l].Low? && i < ENTRIES && IsRoot(own, r)
    ensures LowPage(SetEntry(mem, l, i, pte), r, page) == LowPage(mem, r, page)
    ensures Leaf(SetEntry(mem, l, i, pte), r, page) ==
            if LowPage(mem, r, page) == l && Px(0, page) == i then pte else Leaf(mem, r, page)
  {
    PathOwner(mem, own, r, page);
    SetEntryAt(mem, l, i, pte, r, Px(2, page));
    SetEntryAt(mem, l, i, pte, MidPage(mem, r, page), Px(1, page));
    SetEntryAt(mem, l, i, pte, LowPage(mem, r, page), Px(0, page));
  }

  /** The owners once entry i of l maps page q. */
  function OwnMapped(own: Owners, l: nat, i: nat, q: nat): Owners {
    if Special(own, l, i) then own else own[q := User(l, i)]
  }

  lemma SpecialSame(own: Owners, own': Owners, l: nat, i: nat)
    requires forall p :: p in own && IsTable(own[p]) ==> p in own' && own'[p] == own[p]
    requires forall p :: p in own' && IsTable(own'[p]) ==> p in own && own'[p] == own[p]
    ensures Special(own', l, i) == Special(own, l, i)
  {
  }

  lemma MapLeaf(mem: Mem, own: Owners, l: nat, i: nat, pte: nat)
    requires Tables(mem, own) && l in own && own[l].Low? && i < ENTRIES && !V(Entry(mem, l, i)) && V(pte)
    requires Special(own, l, i) || (Pa(pte) in own && own[Pa(pte)].Other?)
    ensures Tables(SetEntry(mem, l, i, pte), OwnMapped(own, l, i, Pa(pte)))
  {
    var mem', own' := SetEntry(mem, l, i, pte), OwnMapped(own, l, i, Pa(pte));
    assert WholePages(mem');
    forall q | q in own' ensures UpOk(mem', own', q) {
      assert UpOk(mem, own, q);
      UpKept(mem, own, l, i, pte, own', q);
    }
    forall q, j | q in own' && 0 <= j < ENTRIES ensures DownOk(mem', own', q, j) {
      assert DownOk(mem, own, q, j);
      SetEntryAt(mem, l, i, pte, q, j);
      SpecialSame(own, own', q, j);
      SpecialSame(own, own', l, i);
    }
  }

  /** Back references survive a write to an entry that they do not go through. */
  lemma UpKept(mem: Mem, own: Owners, l: nat, i: nat, pte: nat, own': Owners, q: nat)
    requires Tables(mem, own) && l in own && own[l].Low? && i < ENTRIES && q in own && UpOk(mem, own, q)
    requires own'.Keys == own.Keys && forall p :: p in own && IsTable(own[p]) ==> own'[p] == own[p]
    requires own'[q] == own[q] || Unreferenced(own'[q]) || (own'[q] == User(l, i) && V(pte) && Pa(pte) == q)
    requires own'[q] == own[q] == User(l, i) ==> V(pte) && Pa(pte) == q
    requires own'[q] == User(l, i) ==> !Special(own, l, i)
    ensures UpOk(SetEntry(mem, l, i, pte), own', q)
  {
    match own'[q] {
      case Mid(r, j) => SetEntryAt(mem, l, i, pte, r, j);
      case Low(m, j) => SetEntryAt(mem, l, i, pte, m, j);
      case User(k, j) => SetEntryAt(mem, l, i, pte, k, j);
      case _ =>
    }
  }

  /** The owners once entry i of l, which mapped q, is cleared and q is given to o. */
  function OwnUnmapped(own: Owners, l: nat, i: nat, q: nat, o: Owner): Owners {
    if Special(own, l, i) then own else own[q := o]
  }

  lemma UnmapLeaf(mem: Mem, own: Owners, l: nat, i: nat, o: Owner)
    requires Tables(mem, own) && l in own && own[l].Low? && i < ENTRIES && V(Entry(mem, l, i)) && Unreferenced(o)
    ensures Special(own, l, i) || (Pa(Entry(mem, l, i)) in own && own[Pa(Entry(mem, l, i))] == User(l, i))
    ensures Tables(SetEntry(mem, l, i, 0), OwnUnmapped(own, l, i, Pa(Entry(mem, l, i)), o))
  {
    assert DownOk(mem, own, l, i);
    var mem', own' := SetEntry(mem, l, i, 0), OwnUnmapped(own, l, i, Pa(Entry(mem, l, i)), o);
    assert WholePages(mem');
    forall q | q in own' ensures UpOk(mem', own', q) {
      assert UpOk(mem, own, q);
      UpKept(mem, own, l, i, 0, own', q);
    }
    forall q, j | q in own' && 0 <= j < ENTRIES ensures DownOk(mem', own', q, j) {
      assert DownOk(mem, own, q, j);
      SetEntryAt(mem, l, i, 0, q, j);
      SpecialSame(own, own', q, j);
    }
  }

  function Decode(pte: nat): Option<(nat, nat)> {
    if V(pte) then Some((Pa(pte), Flags(pte))) else None
  }

  /** Writing the entry that walk found for (r, page) changes that translation alone. */
  lemma SetLeafXlate(mem: Mem, own: Owners, r: nat, page: nat, pte: nat, r': nat, page': nat)
    requires Tables(mem, own) && IsRoot(own, r) && IsRoot(own, r') && page < PAGES && page' < PAGES
    requires LowPage(mem, r, page) != 0
    ensures LowPage(mem, r, page) in own && own[LowPage(mem, r, page)].Low?
    ensures LowPage(mem, r, page) in mem && Px(0, page) < |mem[LowPage(mem, r, page)]|
    ensures Xlate(SetEntry(mem, LowPage(mem, r, page), Px(0, page), pte), r', page') ==
            if r' == r && page' == page then Decode(pte) else Xlate(mem, r', page')
  {
    PathOwner(mem, own, r, page);
    PathOwner(mem, own, r', page');
    var l := LowPage(mem, r, page);
    PagesPositive(mem, own, l);
    LeafSetLookup(mem, own, l, Px(0, page), pte, r', page');
    if LowPage(mem, r', page') == l && Px(0, page') == Px(0, page) {
      SamePath(mem, own, r, page, r', page');
    }
  }

  /** TRAMPOLINE and TRAPFRAME. */
  predicate SpecialPage(page: nat) { page >= PAGES - 2 }

  lemma SpecialIff(mem: Mem, own: Owners, r: nat, page: nat)
    requires Tables(mem, own) && IsRoot(own, r) && page < PAGES && LowPage(mem, r, page) != 0
    ensures Special(own, LowPage(mem, r, page), Px(0, page)) <==> SpecialPage(page)
  {
    PathOwner(mem, own, r, page);
    PxSpecial(page);
  }

  lemma PxSpecial(page: nat)
    requires page < PAGES
    ensures Px(2, page) == 255 && Px(1, page) == 511 && Px(0, page) >= 510 <==> SpecialPage(page)
  {
    assert page / 262144 < 256;
    assert page == page / 512 * 512 + page % 512;
    assert page / 512 == page / 512 / 512 * 512 + page / 512 % 512;
    assert page / 512 / 512 == page / 262144;
  }
}
