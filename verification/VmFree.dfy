/** Tearing a page table down: freewalk, uvmfree, proc_freepagetable. */
module VmFree {
  import opened Wrappers
  import opened Sv39
  import opened PageTable
  import opened Vm
  import opened VmAlloc

  /** A blank table leaves the tree: its page is freed and the entry above it cleared. */
  lemma RemoveTable(mem: Mem, own: Owners, p: nat, i: nat, c: nat, junk: seq<nat>)
    requires Tables(mem, own) && p in own && (own[p].Root? || own[p].Mid?) && Refers(mem, p, i, c)
    requires Blank(mem, c) && |junk| == ENTRIES
    ensures c in own && own[c] == ChildOf(own, p, i) && c != p && p in mem[c := junk] && i < |mem[c := junk][p]|
    ensures Tables(SetEntry(mem[c := junk], p, i, 0), own[c := Free])
  {
    assert DownOk(mem, own, p, i);
    var mem', own' := SetEntry(mem[c := junk], p, i, 0), own[c := Free];
    assert WholePages(mem');
    forall q | q in own' ensures UpOk(mem', own', q) {
      assert UpOk(mem, own, q);
      RemoveTableUp(mem, own, p, i, c, junk, q);
    }
    forall q, j | q in own' && 0 <= j < ENTRIES ensures DownOk(mem', own', q, j) {
      assert DownOk(mem, own, q, j);
      if q != c {
        assert Entry(mem', q, j) == if q == p && j == i then 0 else Entry(mem, q, j);
        if own[q].Low? { SpecialStays(own, c, q, j); }
      }
    }
  }

  /** Removing a table that no bottom table hangs from does not change which slots are special. */
  lemma SpecialStays(own: Owners, c: nat, q: nat, j: nat)
    requires q in own && own[q].Low? && q != c && c in own && IsTable(own[c]) && own[q].mid != c
    ensures Special(own[c := Free], q, j) == Special(own, q, j)
  {
  }

  lemma RemoveTableUp(mem: Mem, own: Owners, p: nat, i: nat, c: nat, junk: seq<nat>, q: nat)
    requires Tables(mem, own) && p in own && (own[p].Root? || own[p].Mid?) && Refers(mem, p, i, c)
    requires Blank(mem, c) && |junk| == ENTRIES && q in own && c in own && own[c] == ChildOf(own, p, i) && c != p
    requires UpOk(mem, own, q)
    ensures UpOk(SetEntry(mem[c := junk], p, i, 0), own[c := Free], q)
  {
    if q != c {
      match own[q] {
        case Mid(r, j) => assert !V(Entry(mem, c, j));
        case Low(m, j) => assert !V(Entry(mem, c, j));
        case User(l, j) => assert !V(Entry(mem, c, j)); SpecialOfUser(mem, own, c, l, j);
        case _ =>
      }
    }
  }

  lemma SpecialOfUser(mem: Mem, own: Owners, c: nat, l: nat, j: nat)
    requires Tables(mem, own) && c in own && Blank(mem, c) && l in own && own[l].Low? && l != c && IsTable(own[c])
    ensures Special(own[c := Free], l, j) == Special(own, l, j)
  {
    assert UpOk(mem, own, l);
    assert own[l].mid != c;
  }

  /** The entry of table pt that table p lies beneath. */
  function BranchOf(own: Owners, pt: nat, p: nat): Option<nat> {
    if p !in own then None else
    match own[p]
    case Mid(r, j) => if r == pt then Some(j) else None
    case Low(m, j) =>
      if m == pt then Some(j)
      else if m in own && own[m].Mid? && own[m].root == pt then Some(own[m].i)
      else None
    case _ => None
  }

  /** p lies beneath one of the first n entries of pt. */
  predicate Cut(own: Owners, pt: nat, n: nat, p: nat) {
    BranchOf(own, pt, p).Some? && BranchOf(own, pt, p).value < n
  }

  /** The tables beneath the first n entries of pt have been freed, and nothing else has changed. */
  ghost predicate PrunedTo(m0: Mem, own0: Owners, m1: Mem, own1: Owners, pt: nat, n: nat) {
    && Tables(m1, own1) && own1.Keys == own0.Keys && pt in own0
    && (forall p :: p in own0 ==> own1[p] == if Cut(own0, pt, n, p) then Free else own0[p])
    && (forall p :: p in own0 && p != pt && !Cut(own0, pt, n, p) ==> p in m0 && p in m1 && m1[p] == m0[p])
    && (forall j :: 0 <= j < n && j < ENTRIES ==> !V(Entry(m1, pt, j)))
    && (forall j :: n <= j < ENTRIES ==> Entry(m1, pt, j) == Entry(m0, pt, j))
  }

  /** No bottom table at or beneath pt has a valid entry. */
  ghost predicate Leafless(mem: Mem, own: Owners, pt: nat) {
    forall l :: l in own && own[l].Low? && (l == pt || BranchOf(own, pt, l).Some?) ==> Blank(mem, l)
  }

  /** Valid bottom entries at or beneath pt carry one of R, W, X, as mappages' callers make them. */
  ghost predicate LeavesMarked(mem: Mem, own: Owners, pt: nat) {
    forall l, i :: l in own && own[l].Low? && (l == pt || BranchOf(own, pt, l).Some?) && 0 <= i < ENTRIES ==>
      V(Entry(mem, l, i)) ==> !Pointer(Entry(mem, l, i))
  }

  /** What is at or beneath child c is exactly what is beneath entry i of pt. */
  lemma BranchSplit(m0: Mem, own0: Owners, m1: Mem, own1: Owners, pt: nat, i: nat, c: nat, p: nat)
    requires Tables(m0, own0) && PrunedTo(m0, own0, m1, own1, pt, i) && i < ENTRIES
    requires (own0[pt].Root? || own0[pt].Mid?) && Refers(m1, pt, i, c) && p in own0
    requires c in own1 && own1[c] == ChildOf(own1, pt, i)
    ensures BranchOf(own0, pt, p) == Some(i) <==> p == c || BranchOf(own1, c, p).Some?
    ensures BranchOf(own0, pt, p) == Some(i) ==> own1[p] == own0[p]
  {
    assert own1[pt] == own0[pt] && own1[c] == own0[c];
    assert UpOk(m0, own0, p) && UpOk(m1, own1, p);
    if own0[p].Low? {
      assert own0[p].mid in own0 && UpOk(m0, own0, own0[p].mid);
    }
    if own1[p].Low? {
      assert own1[p].mid in own1 && UpOk(m1, own1, own1[p].mid);
    }
  }

  lemma PrunedNone(mem: Mem, own: Owners, pt: nat)
    requires Tables(mem, own) && pt in own
    ensures PrunedTo(mem, own, mem, own, pt, 0)
  {
  }

  /** An entry that is not valid has nothing beneath it. */
  lemma PruneEmpty(m0: Mem, own0: Owners, m1: Mem, own1: Owners, pt: nat, i: nat)
    requires Tables(m0, own0) && PrunedTo(m0, own0, m1, own1, pt, i) && i < ENTRIES && !V(Entry(m1, pt, i))
    requires IsTable(own0[pt])
    ensures PrunedTo(m0, own0, m1, own1, pt, i + 1)
  {
    assert Entry(m0, pt, i) == Entry(m1, pt, i);
    forall p | p in own0 ensures Cut(own0, pt, i + 1, p) <==> Cut(own0, pt, i, p) {
      assert UpOk(m0, own0, p);
      if own0[p].Low? {
        assert own0[p].mid in own0 && UpOk(m0, own0, own0[p].mid);
      }
    }
  }

  /** The table beneath entry i has been freed with everything beneath it, and the entry cleared. */
  lemma PruneChild(m0: Mem, own0: Owners, m1: Mem, own1: Owners, mB: Mem, ownB: Owners, pt: nat, i: nat, c: nat,
                   junk: seq<nat>)
    requires Tables(m0, own0) && PrunedTo(m0, own0, m1, own1, pt, i) && i < ENTRIES
    requires (own0[pt].Root? || own0[pt].Mid?) && Refers(m1, pt, i, c) && |junk| == ENTRIES
    requires PrunedTo(m1, own1, mB, ownB, c, ENTRIES)
    ensures c in ownB && c != pt && pt in mB[c := junk] && i < |mB[c := junk][pt]|
    ensures PrunedTo(m0, own0, SetEntry(mB[c := junk], pt, i, 0), ownB[c := Free], pt, i + 1)
  {
    ChildOwner(m1, own1, pt, i);
    BranchesBelow(m1, own1, c);
    forall p | p in own0
      ensures BranchOf(own0, pt, p) == Some(i) <==> p == c || Cut(own1, c, ENTRIES, p)
      ensures BranchOf(own0, pt, p) == Some(i) ==> own1[p] == own0[p]
    {
      BranchSplit(m0, own0, m1, own1, pt, i, c, p);
    }
    PruneChildTables(m1, own1, mB, ownB, pt, i, c, junk);
    hide Tables, BranchOf;
    PruneChildEntries(m0, own0, m1, own1, mB, ownB, pt, i, c, junk);
  }

  /** Branch numbers are entry numbers. */
  lemma BranchesBelow(mem: Mem, own: Owners, pt: nat)
    requires Tables(mem, own)
    ensures forall p :: p in own && BranchOf(own, pt, p).Some? ==> BranchOf(own, pt, p).value < ENTRIES
  {
    forall p | p in own && BranchOf(own, pt, p).Some? ensures BranchOf(own, pt, p).value < ENTRIES {
      assert UpOk(mem, own, p);
      if own[p].Low? {
        assert own[p].mid in own && UpOk(mem, own, own[p].mid);
      }
    }
  }

  lemma PruneChildTables(m1: Mem, own1: Owners, mB: Mem, ownB: Owners, pt: nat, i: nat, c: nat, junk: seq<nat>)
    requires Tables(m1, own1) && pt in own1 && (own1[pt].Root? || own1[pt].Mid?) && Refers(m1, pt, i, c)
      && |junk| == ENTRIES
    requires PrunedTo(m1, own1, mB, ownB, c, ENTRIES)
    ensures c in ownB && c != pt && pt in mB && pt in mB[c := junk] && mB[c := junk][pt] == mB[pt] && i < |mB[pt]|
    ensures mB[pt] == m1[pt] && Tables(SetEntry(mB[c := junk], pt, i, 0), ownB[c := Free])
  {
    ChildOwner(m1, own1, pt, i);
    ParentIsNotBeneath(m1, own1, pt, i, c);
    RemoveTable(mB, ownB, pt, i, c, junk);
  }

  lemma ParentIsNotBeneath(mem: Mem, own: Owners, pt: nat, i: nat, c: nat)
    requires Tables(mem, own) && pt in own && (own[pt].Root? || own[pt].Mid?)
    requires c in own && own[c] == ChildOf(own, pt, i)
    ensures c != pt && BranchOf(own, c, pt).None? && BranchOf(own, c, c).None?
  {
    assert UpOk(mem, own, pt) && UpOk(mem, own, c);
  }

  lemma PruneChildEntries(m0: Mem, own0: Owners, m1: Mem, own1: Owners, mB: Mem, ownB: Owners, pt: nat, i: nat,
                          c: nat, junk: seq<nat>)
    requires PrunedTo(m0, own0, m1, own1, pt, i) && i < ENTRIES && c != pt && pt in mB && mB[pt] == m1[pt] && pt in m1
      && i < |mB[pt]|
    requires PrunedTo(m1, own1, mB, ownB, c, ENTRIES)
    requires Tables(SetEntry(mB[c := junk], pt, i, 0), ownB[c := Free])
    requires forall p :: p in own0 ==> (BranchOf(own0, pt, p) == Some(i) <==> p == c || Cut(own1, c, ENTRIES, p))
    requires forall p :: p in own0 && BranchOf(own0, pt, p) == Some(i) ==> own1[p] == own0[p]
    ensures PrunedTo(m0, own0, SetEntry(mB[c := junk], pt, i, 0), ownB[c := Free], pt, i + 1)
  {
    hide Tables, V, BranchOf, Cut, Entry;
    CutNext(own0, own1, pt, i, c);
    PruneOwners(own0, own1, ownB, pt, i, c);
    PruneData(m0, own0, m1, own1, mB, pt, i, c, junk);
    PruneEntries(m0, m1, mB, pt, i, c, junk);
  }

  lemma CutNext(own0: Owners, own1: Owners, pt: nat, i: nat, c: nat)
    requires forall p :: p in own0 ==> (BranchOf(own0, pt, p) == Some(i) <==> p == c || Cut(own1, c, ENTRIES, p))
    ensures forall p :: p in own0 ==>
      (Cut(own0, pt, i + 1, p) <==> Cut(own0, pt, i, p) || p == c || Cut(own1, c, ENTRIES, p))
  {
  }

  lemma PruneOwners(own0: Owners, own1: Owners, ownB: Owners, pt: nat, i: nat, c: nat)
    requires own1.Keys == own0.Keys && ownB.Keys == own1.Keys && c in own1
    requires forall p :: p in own0 ==> own1[p] == if Cut(own0, pt, i, p) then Free else own0[p]
    requires forall p :: p in own1 ==> ownB[p] == if Cut(own1, c, ENTRIES, p) then Free else own1[p]
    requires forall p :: p in own0 ==>
      (Cut(own0, pt, i + 1, p) <==> Cut(own0, pt, i, p) || p == c || Cut(own1, c, ENTRIES, p))
    ensures var own2 := ownB[c := Free];
      own2.Keys == own0.Keys && forall p :: p in own0 ==> own2[p] == if Cut(own0, pt, i + 1, p) then Free else own0[p]
  {
    hide Cut;
  }

  lemma PruneData(m0: Mem, own0: Owners, m1: Mem, own1: Owners, mB: Mem, pt: nat, i: nat, c: nat, junk: seq<nat>)
    requires own1.Keys == own0.Keys && pt in mB && i < |mB[pt]| && c != pt
    requires forall p :: p in own0 && p != pt && !Cut(own0, pt, i, p) ==> p in m0 && p in m1 && m1[p] == m0[p]
    requires forall p :: p in own1 && p != c && !Cut(own1, c, ENTRIES, p) ==> p in m1 && p in mB && mB[p] == m1[p]
    requires forall p :: p in own0 ==>
      (Cut(own0, pt, i + 1, p) <==> Cut(own0, pt, i, p) || p == c || Cut(own1, c, ENTRIES, p))
    ensures var m2 := SetEntry(mB[c := junk], pt, i, 0);
      forall p :: p in own0 && p != pt && !Cut(own0, pt, i + 1, p) ==> p in m0 && p in m2 && m2[p] == m0[p]
  {
    hide Cut;
  }

  lemma PruneEntries(m0: Mem, m1: Mem, mB: Mem, pt: nat, i: nat, c: nat, junk: seq<nat>)
    requires pt in mB && pt in m1 && mB[pt] == m1[pt] && i < |mB[pt]| && i < ENTRIES && c != pt
    requires forall j :: 0 <= j < i && j < ENTRIES ==> !V(Entry(m1, pt, j))
    requires forall j :: i <= j < ENTRIES ==> Entry(m1, pt, j) == Entry(m0, pt, j)
    ensures var m2 := SetEntry(mB[c := junk], pt, i, 0);
      && (forall j :: 0 <= j < i + 1 && j < ENTRIES ==> !V(Entry(m2, pt, j)))
      && (forall j :: i + 1 <= j < ENTRIES ==> Entry(m2, pt, j) == Entry(m0, pt, j))
  {
    ZeroNotValid();
    var m2 := SetEntry(mB[c := junk], pt, i, 0);
    hide V;
    assert forall j :: 0 <= j < ENTRIES ==> Entry(m2, pt, j) == if j == i then 0 else Entry(m1, pt, j);
  }

  lemma ZeroNotValid()
    ensures !V(0)
  {
  }

  lemma PrunedFacts(m0: Mem, own0: Owners, m1: Mem, own1: Owners, pt: nat, i: nat)
    requires Tables(m0, own0) && PrunedTo(m0, own0, m1, own1, pt, i) && IsTable(own0[pt])
    ensures Tables(m1, own1) && pt in own1 && own1[pt] == own0[pt] && pt in m1 && |m1[pt]| == ENTRIES && pt > 0
    ensures i < ENTRIES ==> m1[pt][i] == Entry(m0, pt, i)
  {
    assert UpOk(m0, own0, pt);
    PagesPositive(m1, own1, pt);
    assert i < ENTRIES ==> Entry(m1, pt, i) == Entry(m0, pt, i);
  }

  /** freewalk recurses only into tables one level down. */
  lemma PointerIsChild(m0: Mem, own0: Owners, m1: Mem, own1: Owners, pt: nat, i: nat)
    requires Tables(m0, own0) && PrunedTo(m0, own0, m1, own1, pt, i) && IsTable(own0[pt]) && i < ENTRIES
    requires V(Entry(m1, pt, i)) && Pointer(Entry(m1, pt, i)) && LeavesMarked(m0, own0, pt)
    ensures own0[pt].Root? || own0[pt].Mid?
    ensures var c := Pa(Entry(m1, pt, i));
      Refers(m1, pt, i, c) && c in own1 && IsTable(own1[c]) && Level(own1[c]) < Level(own0[pt])
  {
    PrunedFacts(m0, own0, m1, own1, pt, i);
    assert Entry(m1, pt, i) == Entry(m0, pt, i);
    ChildOwner(m1, own1, pt, i);
  }

  /** A valid entry without the look of a pointer is a leaf that should have been removed. */
  lemma LeafLeft(m0: Mem, own0: Owners, m1: Mem, own1: Owners, pt: nat, i: nat)
    requires Tables(m0, own0) && PrunedTo(m0, own0, m1, own1, pt, i) && IsTable(own0[pt]) && i < ENTRIES
    requires V(Entry(m1, pt, i)) && !Pointer(Entry(m1, pt, i))
    ensures !Leafless(m0, own0, pt)
  {
    assert Entry(m1, pt, i) == Entry(m0, pt, i);
    assert DownOk(m0, own0, pt, i);
  }

  /** The bottom tables beneath the first n entries are blank. */
  ghost predicate LeaflessTo(mem: Mem, own: Owners, pt: nat, n: nat) {
    forall l :: l in own && own[l].Low? && Cut(own, pt, n, l) ==> Blank(mem, l)
  }

  lemma LeaflessStep(m0: Mem, own0: Owners, m1: Mem, own1: Owners, pt: nat, i: nat)
    requires Tables(m0, own0) && PrunedTo(m0, own0, m1, own1, pt, i) && IsTable(own0[pt]) && i < ENTRIES
    requires LeaflessTo(m0, own0, pt, i)
    requires V(Entry(m1, pt, i)) ==> (own0[pt].Root? || own0[pt].Mid?) && Leafless(m1, own1, Pa(Entry(m1, pt, i)))
    ensures LeaflessTo(m0, own0, pt, i + 1)
  {
    hide Tables, PrunedTo, BranchOf, Pa, V;
    PrunedKeys(m0, own0, m1, own1, pt, i);
    forall l | l in own0 && own0[l].Low? && BranchOf(own0, pt, l) == Some(i) ensures Blank(m0, l) {
      BranchNeedsEntry(m0, own0, m1, own1, pt, i, l);
      BeneathChild(m0, own0, m1, own1, pt, i, Pa(Entry(m1, pt, i)), l);
      BlankSame(m0, m1, l);
    }
  }

  lemma BranchNeedsEntry(m0: Mem, own0: Owners, m1: Mem, own1: Owners, pt: nat, i: nat, l: nat)
    requires Tables(m0, own0) && PrunedTo(m0, own0, m1, own1, pt, i) && i < ENTRIES
    requires l in own0 && own0[l].Low? && BranchOf(own0, pt, l) == Some(i)
    ensures V(Entry(m1, pt, i)) && Refers(m1, pt, i, Pa(Entry(m1, pt, i)))
  {
    assert Entry(m1, pt, i) == Entry(m0, pt, i);
    assert UpOk(m0, own0, l) && UpOk(m0, own0, own0[l].mid);
  }

  lemma LeaflessDone(m0: Mem, own0: Owners, pt: nat)
    requires Tables(m0, own0) && pt in own0 && LeaflessTo(m0, own0, pt, ENTRIES) && (own0[pt].Low? ==> Blank(m0, pt))
    ensures Leafless(m0, own0, pt)
  {
    BranchesBelow(m0, own0, pt);
  }

  lemma LeaflessNone(m0: Mem, own0: Owners, pt: nat)
    ensures LeaflessTo(m0, own0, pt, 0)
  {
  }

  lemma StillThere(m1: Mem, own1: Owners, mB: Mem, ownB: Owners, c: nat, pt: nat, i: nat)
    requires Tables(m1, own1) && pt in own1 && (own1[pt].Root? || own1[pt].Mid?) && Refers(m1, pt, i, c)
    requires PrunedTo(m1, own1, mB, ownB, c, ENTRIES)
    ensures pt in ownB && ownB[pt] == own1[pt] && pt != c
  {
    ChildOwner(m1, own1, pt, i);
    ParentIsNotBeneath(m1, own1, pt, i, c);
  }

  lemma LeaflessChild(m0: Mem, own0: Owners, m1: Mem, own1: Owners, pt: nat, i: nat, c: nat)
    requires Tables(m0, own0) && PrunedTo(m0, own0, m1, own1, pt, i) && i < ENTRIES
    requires (own0[pt].Root? || own0[pt].Mid?) && Refers(m1, pt, i, c)
    ensures LeavesMarked(m0, own0, pt) ==> LeavesMarked(m1, own1, c)
    ensures !Leafless(m1, own1, c) ==> !Leafless(m0, own0, pt)
  {
    hide Tables, PrunedTo, BranchOf, V;
    PrunedKeys(m0, own0, m1, own1, pt, i);
    forall l | l in own1 && own1[l].Low? && (l == c || BranchOf(own1, c, l).Some?)
      ensures own0[l].Low? && BranchOf(own0, pt, l).Some? && (Blank(m0, l) <==> Blank(m1, l))
      ensures forall j :: 0 <= j < ENTRIES ==> Entry(m1, l, j) == Entry(m0, l, j)
    {
      BeneathChild(m0, own0, m1, own1, pt, i, c, l);
      BlankSame(m0, m1, l);
    }
    hide Blank;
  }

  lemma PrunedKeys(m0: Mem, own0: Owners, m1: Mem, own1: Owners, pt: nat, n: nat)
    requires PrunedTo(m0, own0, m1, own1, pt, n)
    ensures own1.Keys == own0.Keys
  {
  }

  lemma BlankSame(m0: Mem, m1: Mem, l: nat)
    requires l in m0 && l in m1 && m1[l] == m0[l]
    ensures Blank(m0, l) <==> Blank(m1, l)
    ensures forall j :: Entry(m1, l, j) == Entry(m0, l, j)
  {
    assert forall j :: Entry(m1, l, j) == Entry(m0, l, j);
  }

  lemma BeneathChild(m0: Mem, own0: Owners, m1: Mem, own1: Owners, pt: nat, i: nat, c: nat, l: nat)
    requires Tables(m0, own0) && PrunedTo(m0, own0, m1, own1, pt, i) && i < ENTRIES && l in own0
    requires (own0[pt].Root? || own0[pt].Mid?) && Refers(m1, pt, i, c)
    requires (l in own1 && own1[l].Low? && (l == c || BranchOf(own1, c, l).Some?))
          || (own0[l].Low? && BranchOf(own0, pt, l) == Some(i))
    ensures own0[l].Low? && BranchOf(own0, pt, l) == Some(i) && l in m0 && l in m1 && m1[l] == m0[l]
    ensures own1[l] == own0[l] && (l == c || BranchOf(own1, c, l).Some?)
  {
    PrunedFacts(m0, own0, m1, own1, pt, i);
    ChildOwner(m1, own1, pt, i);
    BranchSplit(m0, own0, m1, own1, pt, i, c, l);
    assert l != pt by { assert UpOk(m0, own0, l) && UpOk(m0, own0, pt); }
    assert !Cut(own0, pt, i, l);
  }

  function Level(o: Owner): nat {
    if o.Root? then 2 else if o.Mid? then 1 else 0
  }

  /**
   freewalk.  It panics exactly when a mapping is left; otherwise every table
   at or beneath pt is on the free list, once.  (mB, ownB) is the state just
   before pt's own page is freed.
   */
  method Freewalk(m: Memory, pt: nat) returns (ok: bool, ghost mB: Mem, ghost ownB: Owners)
    requires m.Valid() && pt in m.own && IsTable(m.own[pt]) && LeavesMarked(m.mem, m.own, pt)
    modifies m
    ensures ok <==> Leafless(old(m.mem), old(m.own), pt)
    ensures ok ==> PrunedTo(old(m.mem), old(m.own), mB, ownB, pt, ENTRIES)
    ensures ok ==> m.own == ownB[pt := Free] && Chain(m.mem, m.freelist, m.free) && Lists(m.own, m.free)
    ensures ok ==> exists junk: seq<nat> :: |junk| == ENTRIES && m.mem == mB[pt := junk]
    decreases Level(m.own[pt]), 0
  {
    hide Tables, Chain, Lists, PrunedTo, Leafless, LeavesMarked, BranchOf, LeaflessTo, V, Pa, Pointer;
    ghost var m0, own0 := m.mem, m.own;
    mB, ownB := m0, own0;
    PrunedNone(m0, own0, pt);
    LeaflessNone(m0, own0, pt);
    for i := 0 to ENTRIES
      invariant m.Valid() && PrunedTo(m0, own0, m.mem, m.own, pt, i) && LeaflessTo(m0, own0, pt, i)
      invariant own0[pt].Low? ==> forall j :: 0 <= j < i ==> !V(Entry(m0, pt, j))
    {
      ghost var m1, own1 := m.mem, m.own;
      PrunedFacts(m0, own0, m1, own1, pt, i);
      var pte := m.mem[pt][i];
      if V(pte) && Pointer(pte) {
        var child := Pa(pte);
        PointerIsChild(m0, own0, m1, own1, pt, i);
        ok, mB, ownB := FreeChild(m, pt, i, child, m0, own0);
        if !ok {
          return;
        }
        LeaflessStep(m0, own0, m1, own1, pt, i);
      } else if V(pte) {
        LeafLeft(m0, own0, m1, own1, pt, i);
        return false, m0, own0;
      } else {
        PruneEmpty(m0, own0, m1, own1, pt, i);
        LeaflessStep(m0, own0, m1, own1, pt, i);
      }
    }
    LeaflessDone(m0, own0, pt);
    PrunedFacts(m0, own0, m.mem, m.own, pt, ENTRIES);
    mB, ownB := m.mem, m.own;
    m.Kfree(pt);
    ok := true;
  }

  /** freewalk's recursive call and the clearing of the entry. */
  method FreeChild(m: Memory, pt: nat, i: nat, child: nat, ghost m0: Mem, ghost own0: Owners)
    returns (ok: bool, ghost mB: Mem, ghost ownB: Owners)
    requires m.Valid() && Tables(m0, own0) && PrunedTo(m0, own0, m.mem, m.own, pt, i) && LeavesMarked(m0, own0, pt)
    requires i < ENTRIES && pt in own0 && (own0[pt].Root? || own0[pt].Mid?) && Refers(m.mem, pt, i, child)
    requires child in m.own && IsTable(m.own[child]) && Level(m.own[child]) < Level(own0[pt])
    modifies m
    ensures !ok ==> !Leafless(m0, own0, pt)
    ensures ok ==> Leafless(old(m.mem), old(m.own), child) && m.Valid() && PrunedTo(m0, own0, m.mem, m.own, pt, i + 1)
    decreases Level(m.own[child]), 1
  {
    hide Tables, Chain, Lists, PrunedTo, Leafless, LeavesMarked, BranchOf;
    ghost var m1, own1 := m.mem, m.own;
    PrunedFacts(m0, own0, m1, own1, pt, i);
    LeaflessChild(m0, own0, m1, own1, pt, i, child);
    ok, mB, ownB := Freewalk(m, child);
    if ok {
      ghost var junk :| |junk| == ENTRIES && m.mem == mB[child := junk];
      PruneChild(m0, own0, m1, own1, mB, ownB, pt, i, child, junk);
      StillThere(m1, own1, mB, ownB, child, pt, i);
      ChainSetEntry(m.mem, m.own, m.freelist, m.free, pt, i, 0);
      m.mem := SetEntry(m.mem, pt, i, 0);
      PrunedIsTables(m0, own0, m.mem, m.own, pt, i + 1);
    }
  }

  lemma PrunedIsTables(m0: Mem, own0: Owners, m1: Mem, own1: Owners, pt: nat, n: nat)
    requires PrunedTo(m0, own0, m1, own1, pt, n)
    ensures Tables(m1, own1)
  {
  }

  /** The virtual page whose entry is slot i of bottom table l. */
  function SlotPage(own: Owners, l: nat, i: nat): int
    requires l in own && own[l].Low? && own[l].mid in own && own[own[l].mid].Mid?
  {
    own[own[l].mid].i * 262144 + own[l].i * 512 + i
  }

  lemma SlotIsReached(mem: Mem, own: Owners, root: nat, l: nat, i: nat)
    requires Tables(mem, own) && IsRoot(own, root) && l in own && own[l].Low? && i < ENTRIES
    requires BranchOf(own, root, l).Some?
    ensures own[l].mid in own && own[own[l].mid].Mid?
    ensures 0 <= SlotPage(own, l, i) < PAGES
    ensures LowPage(mem, root, SlotPage(own, l, i)) == l && Px(0, SlotPage(own, l, i)) == i
    ensures Special(own, l, i) <==> SpecialPage(SlotPage(own, l, i))
  {
    assert UpOk(mem, own, l);
    var mid := own[l].mid;
    assert UpOk(mem, own, mid);
    PxInverse(own[mid].i, own[l].i, i);
    var page := SlotPage(own, l, i);
    assert MidPage(mem, root, page) == mid;
    assert LowPage(mem, root, page) == l;
    PagesPositive(mem, own, l);
    SpecialIff(mem, own, root, page);
  }

  lemma UnmappedIsLeafless(mem: Mem, own: Owners, root: nat)
    requires Tables(mem, own) && IsRoot(own, root) && forall page :: 0 <= page < PAGES ==> Xlate(mem, root, page).None?
    ensures Leafless(mem, own, root) && LeavesMarked(mem, own, root)
  {
    forall l, i | l in own && own[l].Low? && BranchOf(own, root, l).Some? && 0 <= i < ENTRIES
      ensures !V(Entry(mem, l, i))
    {
      SlotIsReached(mem, own, root, l, i);
      assert Xlate(mem, root, SlotPage(own, l, i)).None?;
    }
  }

  /** p is the root, a table beneath it or a user page that one of those maps. */
  predicate Belongs(own: Owners, root: nat, p: nat) {
    p in own && (p == root || BranchOf(own, root, p).Some? || (own[p].User? && BranchOf(own, root, own[p].low).Some?))
  }

  /** Mapped user pages and pages owned through a table beneath root are the same pages. */
  lemma MappedIffBelongs(mem: Mem, own: Owners, root: nat, n: nat, p: nat)
    requires Tables(mem, own) && IsRoot(own, root) && p in own && n <= PAGES - 2
    requires forall page :: n <= page < PAGES - 2 ==> Xlate(mem, root, page).None?
    ensures MappedIn(mem, root, 0, n, p) <==> own[p].User? && BranchOf(own, root, own[p].low).Some?
  {
    if own[p].User? && BranchOf(own, root, own[p].low).Some? {
      assert UpOk(mem, own, p);
      SlotIsReached(mem, own, root, own[p].low, own[p].i);
      var page := SlotPage(own, own[p].low, own[p].i);
      assert Xlate(mem, root, page).Some? && MappedAt(mem, root, page, p);
      assert page < n;
    }
    if MappedIn(mem, root, 0, n, p) {
      var page :| 0 <= page < n && MappedAt(mem, root, page, p);
      ZeroIsNoPage(mem, own);
      EntryFacts(mem, own, root, page);
      PathOwner(mem, own, root, page);
    }
  }

  lemma BranchKept(own0: Owners, own1: Owners, root: nat, p: nat)
    requires own1.Keys == own0.Keys && p in own0
    requires forall q :: q in own0 && (IsTable(own0[q]) || IsTable(own1[q])) ==> own1[q] == own0[q]
    ensures BranchOf(own1, root, p) == BranchOf(own0, root, p)
  {
  }

  lemma RemoveRoot(m0: Mem, own0: Owners, mB: Mem, ownB: Owners, root: nat, junk: seq<nat>)
    requires Tables(m0, own0) && PrunedTo(m0, own0, mB, ownB, root, ENTRIES) && IsRoot(own0, root) && |junk| == ENTRIES
    ensures Tables(mB[root := junk], ownB[root := Free])
  {
    PrunedFacts(m0, own0, mB, ownB, root, ENTRIES);
    var m2, own2 := mB[root := junk], ownB[root := Free];
    assert WholePages(m2);
    forall q | q in own2 ensures UpOk(m2, own2, q) {
      assert UpOk(mB, ownB, q);
      if q != root && ownB[q].Mid? { assert !V(Entry(mB, root, ownB[q].i)); }
    }
    forall q, j | q in own2 && 0 <= j < ENTRIES ensures DownOk(m2, own2, q, j) {
      assert DownOk(mB, ownB, q, j);
    }
  }

  /** Another address space does not notice. */
  lemma PrunedXlate(m1: Mem, own1: Owners, mB: Mem, ownB: Owners, root: nat, junk: seq<nat>, r: nat, page: nat)
    requires Tables(m1, own1) && PrunedTo(m1, own1, mB, ownB, root, ENTRIES) && IsRoot(own1, root) && IsRoot(own1, r)
      && r != root
    ensures Xlate(mB[root := junk], r, page) == Xlate(m1, r, page)
  {
    ZeroIsNoPage(m1, own1);
    PathOwner(m1, own1, r, page);
    var m2, mid, low := mB[root := junk], MidPage(m1, r, page), LowPage(m1, r, page);
    assert !Cut(own1, root, ENTRIES, r) && m2[r] == m1[r];
    assert MidPage(m2, r, page) == mid;
    if mid != 0 {
      assert !Cut(own1, root, ENTRIES, mid) && m2[mid] == m1[mid];
      assert LowPage(m2, r, page) == low;
      if low != 0 {
        assert !Cut(own1, root, ENTRIES, low) && m2[low] == m1[low];
      }
    }
    assert 0 !in m2 by { PrunedIsTables(m1, own1, mB, ownB, root, ENTRIES); ZeroIsNoPage(mB, ownB); }
  }

  /** The pages of `root` are free and everyone else's are as they were. */
  ghost predicate TornDown(m0: Mem, own0: Owners, m1: Mem, own1: Owners, root: nat) {
    && own1.Keys == own0.Keys
    && (forall p :: p in own0 ==> own1[p] == if Belongs(own0, root, p) then Free else own0[p])
    && (forall r, page :: IsRoot(own0, r) && r != root && 0 <= page < PAGES ==>
      Xlate(m1, r, page) == Xlate(m0, r, page))
    && (forall p :: p in own0 && (own0[p].User? || own0[p].Other?) && !Belongs(own0, root, p) ==>
          p in m0 && p in m1 && m1[p] == m0[p])
  }

  lemma TornDownFrom(m0: Mem, own0: Owners, m1: Mem, own1: Owners, mB: Mem, ownB: Owners, root: nat, n: nat,
                     junk: seq<nat>)
    requires Tables(m0, own0) && Tables(m1, own1) && IsRoot(own0, root) && n <= PAGES - 2
    requires forall page :: n <= page < PAGES - 2 ==> Xlate(m0, root, page).None?
    requires Unmaps(m0, own0, m1, own1, root, 0, n, Free)
    requires PrunedTo(m1, own1, mB, ownB, root, ENTRIES)
    ensures TornDown(m0, own0, mB[root := junk], ownB[root := Free], root)
  {
    hide Tables, PrunedTo, MappedIn, Belongs, BranchOf, Xlate;
    var m2, own2 := mB[root := junk], ownB[root := Free];
    forall r, page | IsRoot(own0, r) && r != root && 0 <= page < PAGES
      ensures Xlate(m2, r, page) == Xlate(m0, r, page)
    {
      UnmapsKeepsRoot(m0, own0, m1, own1, root, 0, n, Free, r);
      UnmapsKeepsRoot(m0, own0, m1, own1, root, 0, n, Free, root);
      PrunedXlate(m1, own1, mB, ownB, root, junk, r, page);
    }
    PrunedKeys(m1, own1, mB, ownB, root, ENTRIES);
    hide Unmaps;
    forall p | p in own0
      ensures own2[p] == if Belongs(own0, root, p) then Free else own0[p]
      ensures (own0[p].User? || own0[p].Other?) && !Belongs(own0, root, p) ==> p in m0 && p in m2 && m2[p] == m0[p]
    {
      MappedIffBelongs(m0, own0, root, n, p);
      TornDownAt(m0, own0, m1, own1, mB, ownB, root, n, junk, p);
    }
  }

  lemma TornDownAt(m0: Mem, own0: Owners, m1: Mem, own1: Owners, mB: Mem, ownB: Owners, root: nat, n: nat,
                   junk: seq<nat>, p: nat)
    requires Tables(m1, own1) && IsRoot(own0, root) && p in own0
    requires Unmaps(m0, own0, m1, own1, root, 0, n, Free) && PrunedTo(m1, own1, mB, ownB, root, ENTRIES)
    requires MappedIn(m0, root, 0, n, p) <==> own0[p].User? && BranchOf(own0, root, own0[p].low).Some?
    ensures ownB[root := Free][p] == if Belongs(own0, root, p) then Free else own0[p]
    ensures (own0[p].User? || own0[p].Other?) && !Belongs(own0, root, p) ==>
      p in m0 && p in mB && p != root && mB[p] == m0[p]
  {
    hide Tables, MappedIn, UnmapsRange;
    BranchKept(own0, own1, root, p);
    BranchesBelow(m1, own1, root);
    hide BranchOf;
    assert own1[p] == own0[p] || (own0[p].User? && own1[p].Free?);
    assert Cut(own1, root, ENTRIES, p) <==> BranchOf(own0, root, p).Some?;
  }

  /** uvmfree: the address space's pages all go back to kalloc, and freewalk does not panic. */
  method Uvmfree(m: Memory, root: nat, sz: nat) returns (ok: bool)
    requires m.Valid() && IsRoot(m.own, root) && sz <= (PAGES - 2) * PGSIZE
    requires forall page :: PagesFor(sz) <= page < PAGES ==> Xlate(m.mem, root, page).None?
    modifies m
    ensures ok && m.Valid() && TornDown(old(m.mem), old(m.own), m.mem, m.own, root)
  {
    hide Tables, Chain, Lists, Unmaps, PrunedTo, Leafless, LeavesMarked, Xlate, TornDown;
    ghost var m0, own0, n := m.mem, m.own, PagesFor(sz);
    PagesForFacts(sz, PAGES - 2);
    PagesForFacts(sz, 0);
    if sz > 0 {
      m.Uvmunmap(root, 0, RoundUp(sz) / PGSIZE, true);
    } else {
      UnmapsNone(m0, own0, root, 0, Free);
    }
    ghost var m1, own1 := m.mem, m.own;
    AllGone(m0, own0, m1, own1, root, n);
    UnmappedIsLeafless(m1, own1, root);
    ghost var mB: Mem, ownB: Owners;
    ok, mB, ownB := Freewalk(m, root);
    ghost var junk :| |junk| == ENTRIES && m.mem == mB[root := junk];
    RemoveRoot(m1, own1, mB, ownB, root, junk);
    TornDownFrom(m0, own0, m1, own1, mB, ownB, root, n, junk);
  }

  lemma AllGone(m0: Mem, own0: Owners, m1: Mem, own1: Owners, root: nat, n: nat)
    requires Unmaps(m0, own0, m1, own1, root, 0, n, Free)
    requires forall page :: n <= page < PAGES ==> Xlate(m0, root, page).None?
    ensures IsRoot(own1, root) && forall page :: 0 <= page < PAGES ==> Xlate(m1, root, page).None?
  {
    assert IsRoot(own0, root);
  }

  lemma SpecialUnmapped(m0: Mem, own0: Owners, m1: Mem, own1: Owners, root: nat, page: nat)
    requires Unmaps(m0, own0, m1, own1, root, page, 1, Other) && SpecialPage(page)
    ensures own1 == own0 && UnmapsRange(m0, m1, own0, root, page, 1) && SameData(m0, own0, m1)
  {
    forall p ensures !MappedIn(m0, root, page, 1, p) {
      MappedInOne(m0, root, page, p);
    }
    assert own1 == own0;
  }

  const TRAMPOLINE := MAXVA - PGSIZE
  const TRAPFRAME := TRAMPOLINE - PGSIZE

  /** proc_freepagetable: a process's table, with nothing mapped but [0, sz), trapframe and trampoline. */
  method ProcFreepagetable(m: Memory, root: nat, sz: nat) returns (ok: bool)
    requires m.Valid() && IsRoot(m.own, root) && sz <= TRAPFRAME
    requires forall page :: PagesFor(sz) <= page < PAGES - 2 ==> Xlate(m.mem, root, page).None?
    modifies m
    ensures ok && m.Valid() && TornDown(old(m.mem), old(m.own), m.mem, m.own, root)
  {
    hide Tables, Chain, Lists, Unmaps, Xlate, TornDown;
    ghost var m0, own0 := m.mem, m.own;
    m.Uvmunmap(root, TRAMPOLINE, 1, false);
    ghost var m1, own1 := m.mem, m.own;
    SpecialUnmapped(m0, own0, m1, own1, root, PAGES - 1);
    m.Uvmunmap(root, TRAPFRAME, 1, false);
    ghost var m2 := m.mem;
    SpecialUnmapped(m1, own1, m2, m.own, root, PAGES - 2);
    ok := Uvmfree(m, root, sz);
    TornDownAfter(m0, m1, m2, m.mem, own0, m.own, root);
  }

  lemma TornDownAfter(m0: Mem, m1: Mem, m2: Mem, m3: Mem, own0: Owners, own3: Owners, root: nat)
    requires UnmapsRange(m0, m1, own0, root, PAGES - 1, 1) && SameData(m0, own0, m1)
    requires UnmapsRange(m1, m2, own0, root, PAGES - 2, 1) && SameData(m1, own0, m2)
    requires TornDown(m2, own0, m3, own3, root)
    ensures TornDown(m0, own0, m3, own3, root)
  {
  }
}
