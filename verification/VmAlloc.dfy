/** What uvmalloc and uvmcopy do to memory, as a relation between two states. */
module VmAlloc {
  import opened Wrappers
  import opened Params
  import opened Sv39
  import opened PageTable
  import opened Vm

  /** The pages to add to an address space: contents and flags. */
  type Want = map<nat, (seq<nat>, nat)>

  /** In m1, r maps `page` to a page that was free in own0, holding what is wanted. */
  ghost predicate Fresh(own0: Owners, m1: Mem, own1: Owners, r: nat, page: nat, w: (seq<nat>, nat)) {
    && Xlate(m1, r, page).Some? && Xlate(m1, r, page).value.1 == w.1
    && var q := Xlate(m1, r, page).value.0;
       q in own0 && own0[q].Free? && q in own1 && own1[q].User? && q in m1 && m1[q] == w.0
  }

  ghost predicate AddedXlate(m0: Mem, own0: Owners, m1: Mem, own1: Owners, r: nat, want: Want) {
    forall r', page :: IsRoot(own0, r') && 0 <= page < PAGES ==>
      if r' == r && page in want then Fresh(own0, m1, own1, r, page, want[page])
      else Xlate(m1, r', page) == Xlate(m0, r', page)
  }

  ghost predicate NewUser(m1: Mem, r: nat, want: Want, p: nat) {
    exists page :: page in want && MappedAt(m1, r, page, p)
  }

  ghost predicate AddedOwners(own0: Owners, m1: Mem, own1: Owners, r: nat, want: Want) {
    && own1.Keys == own0.Keys
    && (forall p :: p in own0 && !own0[p].Free? ==> own1[p] == own0[p])
    && (forall p :: p in own0 && own0[p].Free? ==>
          own1[p].Free? || own1[p].Mid? || own1[p].Low? || (own1[p].User? && NewUser(m1, r, want, p)))
  }

  /** r gained exactly the wanted pages; every other translation, owner in use and content is as before. */
  ghost predicate Added(m0: Mem, own0: Owners, m1: Mem, own1: Owners, r: nat, want: Want) {
    && IsRoot(own0, r) && (forall page :: page in want ==> page < PAGES - 2)
    && AddedXlate(m0, own0, m1, own1, r, want)
    && AddedOwners(own0, m1, own1, r, want) && SameData(m0, own0, m1)
  }

  lemma AddedNone(mem: Mem, own: Owners, r: nat)
    requires Tables(mem, own) && IsRoot(own, r)
    ensures Added(mem, own, mem, own, r, map[])
  {
  }

  lemma AddedNextXlate(m0: Mem, own0: Owners, m1: Mem, own1: Owners, q: nat, content: seq<nat>, m2: Mem, own2: Owners,
                       r: nat, want: Want, page: nat, perm: nat)
    requires Added(m0, own0, m1, own1, r, want) && page !in want && page < PAGES - 2
    requires q in own1 && own1[q].Free? && SameXlate(m1, m1[q := content], own1)
    requires MapsTo(m1[q := content], own1[q := Other], m2, own2, r, page, 1, q, perm) && own2[q].User?
    ensures AddedXlate(m0, own0, m2, own2, r, want[page := (content, WithV(perm))])
  {
    var want' := want[page := (content, WithV(perm))];
    forall r', page' | IsRoot(own0, r') && 0 <= page' < PAGES
      ensures if r' == r && page' in want' then Fresh(own0, m2, own2, r, page', want'[page'])
              else Xlate(m2, r', page') == Xlate(m0, r', page')
    {
      AddedNextAt(m0, own0, m1, own1, q, content, m2, own2, r, want, page, perm, r', page');
    }
    hide Added, MapsTo, Fresh, Xlate, SameXlate;
  }

  lemma AddedNextAt(m0: Mem, own0: Owners, m1: Mem, own1: Owners, q: nat, content: seq<nat>, m2: Mem, own2: Owners,
                    r: nat, want: Want, page: nat, perm: nat, r': nat, page': nat)
    requires Added(m0, own0, m1, own1, r, want) && page !in want && page < PAGES - 2
    requires q in own1 && own1[q].Free? && SameXlate(m1, m1[q := content], own1)
    requires MapsTo(m1[q := content], own1[q := Other], m2, own2, r, page, 1, q, perm) && own2[q].User?
    requires IsRoot(own0, r') && page' < PAGES
    ensures var want' := want[page := (content, WithV(perm))];
      if r' == r && page' in want' then Fresh(own0, m2, own2, r, page', want'[page'])
      else Xlate(m2, r', page') == Xlate(m0, r', page')
  {
    hide Xlate, NewUser;
    assert IsRoot(own1, r') && IsRoot(own1[q := Other], r');
    assert Xlate(m1[q := content], r', page') == Xlate(m1, r', page');
    if r' == r && page' == page {
      assert Xlate(m2, r, page) == Some((q, WithV(perm)));
      assert own0[q].Free?;
      assert m2[q] == m1[q := content][q];
    } else if r' == r && page' in want {
      assert Fresh(own0, m1, own1, r, page', want[page']);
      var x := Xlate(m1, r, page').value.0;
      assert x != q;
      assert own1[q := Other][x].User?;
    }
  }

  lemma AddedNextOwners(m0: Mem, own0: Owners, m1: Mem, own1: Owners, q: nat, content: seq<nat>, m2: Mem, own2: Owners,
                        r: nat, want: Want, page: nat, perm: nat)
    requires Added(m0, own0, m1, own1, r, want) && page !in want && page < PAGES - 2
    requires q in own1 && own1[q].Free? && SameXlate(m1, m1[q := content], own1)
    requires MapsTo(m1[q := content], own1[q := Other], m2, own2, r, page, 1, q, perm) && own2[q].User?
    ensures AddedOwners(own0, m2, own2, r, want[page := (content, WithV(perm))])
  {
    var want', oh := want[page := (content, WithV(perm))], own1[q := Other];
    assert IsRoot(own1, r) && IsRoot(oh, r);
    forall p | p in own0 && own0[p].Free?
      ensures own2[p].Free? || own2[p].Mid? || own2[p].Low? || (own2[p].User? && NewUser(m2, r, want', p))
    {
      if p != q { OtherUnchanged(oh, own2, q, p); }
      if own2[p].User? {
        NewUserNext(m1, own1, q, content, m2, r, want, page, perm, p);
      }
    }
    forall p | p in own0 && !own0[p].Free? ensures own2[p] == own0[p] {
      OtherUnchanged(oh, own2, q, p);
    }
  }

  lemma NewUserNext(m1: Mem, own1: Owners, q: nat, content: seq<nat>, m2: Mem, r: nat, want: Want, page: nat,
                    perm: nat, p: nat)
    requires IsRoot(own1, r) && q in own1 && own1[q].Free? && SameXlate(m1, m1[q := content], own1)
    requires MapsRange(m1[q := content], m2, own1[q := Other], r, page, 1, q, perm) && page < PAGES - 2 && page !in want
    requires forall x :: x in want ==> x < PAGES - 2
    requires p == q || NewUser(m1, r, want, p)
    ensures NewUser(m2, r, want[page := (content, WithV(perm))], p)
  {
    var want' := want[page := (content, WithV(perm))];
    assert IsRoot(own1[q := Other], r);
    if p == q {
      assert Xlate(m2, r, page) == Some((q, WithV(perm)));
      assert page in want' && MappedAt(m2, r, page, p);
    } else {
      var x :| x in want && MappedAt(m1, r, x, p);
      assert Xlate(m1[q := content], r, x) == Xlate(m1, r, x);
      assert Xlate(m2, r, x) == Xlate(m1, r, x);
      assert x in want' && MappedAt(m2, r, x, p);
    }
  }

  /** Mapping the one page q leaves other pages' owners alone, up to new tables. */
  lemma OtherUnchanged(own1: Owners, own2: Owners, q: nat, p: nat)
    requires OwnersAfterMap(own1, own2, q, 1) && p in own1 && q in own1 && own1[q].Other?
    requires p != q
    ensures !own1[p].Free? ==> own2[p] == own1[p]
    ensures own1[p].Free? ==> own2[p].Free? || own2[p].Mid? || own2[p].Low?
  {
  }

  /** A fresh page q with the wanted contents is mapped at `page`. */
  lemma AddedNext(m0: Mem, own0: Owners, m1: Mem, own1: Owners, q: nat, content: seq<nat>, m2: Mem, own2: Owners,
                  r: nat, want: Want, page: nat, perm: nat)
    requires Added(m0, own0, m1, own1, r, want) && page !in want && page < PAGES - 2
    requires q in own1 && own1[q].Free? && SameXlate(m1, m1[q := content], own1)
    requires MapsTo(m1[q := content], own1[q := Other], m2, own2, r, page, 1, q, perm) && own2[q].User?
    ensures Added(m0, own0, m2, own2, r, want[page := (content, WithV(perm))])
  {
    AddedNextXlate(m0, own0, m1, own1, q, content, m2, own2, r, want, page, perm);
    AddedNextOwners(m0, own0, m1, own1, q, content, m2, own2, r, want, page, perm);
    hide AddedXlate, AddedOwners;
    assert SameData(m0, own0, m2) by { SameDataNext(m0, own0, m1, own1, q, content, m2, r, want); }
  }

  lemma SameDataNext(m0: Mem, own0: Owners, m1: Mem, own1: Owners, q: nat, content: seq<nat>, m2: Mem, r: nat,
                     want: Want)
    requires SameData(m0, own0, m1) && AddedOwners(own0, m1, own1, r, want) && q in own1 && own1[q].Free?
    requires SameData(m1[q := content], own1[q := Other], m2)
    ensures SameData(m0, own0, m2)
  {
    forall p | p in own0 && (own0[p].User? || own0[p].Other?) ensures p in m0 && p in m2 && m2[p] == m0[p] {
      assert p != q;
      assert own1[q := Other][p] == own0[p];
    }
  }

  /** kalloc succeeded, mappages did not, and the page went back: nothing was added. */
  lemma AddedBackOut(m0: Mem, own0: Owners, m1: Mem, own1: Owners, q: nat, content: seq<nat>, m2: Mem, own2: Owners,
                     junk: seq<nat>, r: nat, want: Want, page: nat, perm: nat)
    requires Added(m0, own0, m1, own1, r, want) && Tables(m2, own2) && |junk| == ENTRIES
    requires q in own1 && own1[q].Free? && SameXlate(m1, m1[q := content], own1)
    requires MapsTo(m1[q := content], own1[q := Other], m2, own2, r, page, 0, q, perm)
    ensures q in own2 && own2[q].Other? && Tables(m2[q := junk], own2[q := Free])
    ensures Added(m0, own0, m2[q := junk], own2[q := Free], r, want)
  {
    hide Tables, Xlate, Added;
    var m3, own3 := m2[q := junk], own2[q := Free];
    assert own2[q].Other? by { assert !InRange(q, q, 0); }
    DataChange(m2, own2, q, junk);
    OwnerChange(m3, own2, q, Free);
    BackOutOwners(own1, own2, q);
    BackOutData(m1, own1, q, content, m2, own2, junk, r, page, perm);
    BackOutXlate(m1, own1, q, content, m2, own2, junk, r, page, perm);
    AddedSameView(m0, own0, m1, own1, m3, own3, r, want);
  }

  lemma BackOutOwners(own1: Owners, own2: Owners, q: nat)
    requires q in own1 && own1[q].Free? && OwnersAfterMap(own1[q := Other], own2, q, 0)
    ensures var own3 := own2[q := Free];
      && own3.Keys == own1.Keys
      && forall p :: p in own1 ==>
        own3[p] == own1[p] || (own1[p].Free? && (own3[p].Free? || own3[p].Mid? || own3[p].Low?))
  {
    var own3, oh := own2[q := Free], own1[q := Other];
    assert own3.Keys == own1.Keys;
    forall p | p in own1 && p != q
      ensures own3[p] == own1[p] || (own1[p].Free? && (own3[p].Free? || own3[p].Mid? || own3[p].Low?))
    {
      assert !InRange(p, q, 0);
      assert oh[p] == own1[p];
    }
  }

  lemma BackOutData(m1: Mem, own1: Owners, q: nat, content: seq<nat>, m2: Mem, own2: Owners, junk: seq<nat>, r: nat,
                    page: nat, perm: nat)
    requires q in own1 && own1[q].Free? && MapsTo(m1[q := content], own1[q := Other], m2, own2, r, page, 0, q, perm)
    ensures forall p :: p in own1 && (own1[p].User? || own1[p].Other?) ==>
      p in m2[q := junk] && p in m1 && m2[q := junk][p] == m1[p]
  {
    hide MapsRange, OwnersAfterMap;
    var oh := own1[q := Other];
    forall p | p in own1 && (own1[p].User? || own1[p].Other?)
      ensures p in m2[q := junk] && p in m1 && m2[q := junk][p] == m1[p]
    {
      assert p != q && oh[p] == own1[p];
    }
  }

  lemma BackOutXlate(m1: Mem, own1: Owners, q: nat, content: seq<nat>, m2: Mem, own2: Owners, junk: seq<nat>, r: nat,
                     page: nat, perm: nat)
    requires q in own1 && own1[q].Free? && SameXlate(m1, m1[q := content], own1)
    requires MapsTo(m1[q := content], own1[q := Other], m2, own2, r, page, 0, q, perm)
      && SameXlate(m2, m2[q := junk], own2)
    ensures SameXlate(m1, m2[q := junk], own1)
  {
    hide Xlate;
    var m3, oh := m2[q := junk], own1[q := Other];
    forall r', page' | IsRoot(own1, r') && 0 <= page' < PAGES ensures Xlate(m3, r', page') == Xlate(m1, r', page') {
      assert !InRange(r', q, 0);
      assert IsRoot(oh, r') && IsRoot(own2, r');
      assert Xlate(m1[q := content], r', page') == Xlate(m1, r', page');
      assert Xlate(m2, r', page') == Xlate(m1[q := content], r', page');
    }
  }

  /** Added depends on the later state only through its translations, owners in use and their contents. */
  lemma AddedSameView(m0: Mem, own0: Owners, m1: Mem, own1: Owners, m3: Mem, own3: Owners, r: nat, want: Want)
    requires Added(m0, own0, m1, own1, r, want) && own3.Keys == own1.Keys
    requires SameXlate(m1, m3, own1)
    requires forall p :: p in own1 ==>
      own3[p] == own1[p] || (own1[p].Free? && (own3[p].Free? || own3[p].Mid? || own3[p].Low?))
    requires forall p :: p in own1 && (own1[p].User? || own1[p].Other?) ==> p in m3 && p in m1 && m3[p] == m1[p]
    ensures Added(m0, own0, m3, own3, r, want)
  {
    forall r', page | IsRoot(own0, r') && 0 <= page < PAGES
      ensures
        if r' == r && page in want then Fresh(own0, m3, own3, r, page, want[page])
        else Xlate(m3, r', page) == Xlate(m0, r', page)
    {
      assert IsRoot(own1, r');
      assert Xlate(m3, r', page) == Xlate(m1, r', page);
    }
    assert IsRoot(own1, r);
    forall p | p in own0 && own0[p].Free? && own3[p].User? ensures NewUser(m3, r, want, p) {
      var x :| x in want && MappedAt(m1, r, x, p);
      assert Xlate(m3, r, x) == Xlate(m1, r, x);
      assert MappedAt(m3, r, x, p);
    }
  }

  /** Unmapping with free everything that was added leaves at most new blank tables behind. */
  lemma AddedUndone(m0: Mem, own0: Owners, m1: Mem, own1: Owners, m2: Mem, own2: Owners, r: nat, want: Want,
                    page0: nat, n: nat)
    requires Added(m0, own0, m1, own1, r, want) && Unmaps(m1, own1, m2, own2, r, page0, n, Free)
    requires forall page :: page in want ==> page0 <= page < page0 + n
    requires forall page :: page0 <= page < page0 + n ==> page < PAGES - 2 && Xlate(m0, r, page).None?
    ensures Grown(m0, own0, m2, own2)
  {
    forall r', page | IsRoot(own0, r') && 0 <= page < PAGES ensures Xlate(m2, r', page) == Xlate(m0, r', page) {
      assert IsRoot(own1, r');
    }
    forall p, page | p in own0 && page0 <= page < page0 + n && MappedAt(m1, r, page, p) ensures own0[p].Free? {
      assert IsRoot(own0, r) && page < PAGES;
    }
    forall p | p in own0 && own0[p].Free? ensures own2[p].Free? || own2[p].Mid? || own2[p].Low? {
      if own1[p].User? {
        var x :| x in want && MappedAt(m1, r, x, p);
        assert MappedIn(m1, r, page0, n, p);
      }
    }
  }

  /** A user page that a table maps is owned by the entry that maps it. */
  lemma XlateOwner(mem: Mem, own: Owners, r: nat, page: nat)
    requires Tables(mem, own) && IsRoot(own, r) && page < PAGES - 2 && Xlate(mem, r, page).Some?
    ensures var q := Xlate(mem, r, page).value.0; q in own && own[q].User? && q in mem && |mem[q]| == ENTRIES
  {
    ZeroIsNoPage(mem, own);
    EntryFacts(mem, own, r, page);
    PagesPositive(mem, own, Xlate(mem, r, page).value.0);
  }

  lemma MappedIsUser(m1: Mem, own1: Owners, m2: Mem, own2: Owners, r: nat, page: nat, q: nat, perm: nat)
    requires MapsTo(m1, own1, m2, own2, r, page, 1, q, perm) && Tables(m2, own2) && page < PAGES - 2
    ensures q in own2 && own2[q].User?
  {
    RootSurvivesMap(own1, own2, q, 1, r);
    assert Xlate(m2, r, page) == Some((q, WithV(perm)));
    XlateOwner(m2, own2, r, page);
  }

  lemma AddedFacts(m0: Mem, own0: Owners, m1: Mem, own1: Owners, r: nat, want: Want)
    requires Added(m0, own0, m1, own1, r, want)
    ensures IsRoot(own1, r)
    ensures forall page :: 0 <= page < PAGES && page !in want ==> Xlate(m1, r, page) == Xlate(m0, r, page)
  {
    assert IsRoot(own0, r);
  }

  /** mappages of the held page q; if it fails, kfree. */
  method MapOrGiveBack(m: Memory, root: nat, a: nat, q: nat, perm: nat, ghost content: seq<nat>,
                       ghost m0: Mem, ghost own0: Owners, ghost m1: Mem, ghost own1: Owners, ghost want: Want)
                         returns (ok: bool)
    requires m.Valid() && Added(m0, own0, m1, own1, root, want) && perm < 1024 && IsRoot(m.own, root)
    requires q in own1 && own1[q].Free? && SameXlate(m1, m1[q := content], own1) && q % PGSIZE == 0
    requires m.mem == m1[q := content] && m.own == own1[q := Other] && MayMap(m.own, a / PGSIZE, 1, q)
    requires a % PGSIZE == 0 && a / PGSIZE < PAGES - 2 && a / PGSIZE !in want && Xlate(m.mem, root, a / PGSIZE).None?
    modifies m
    ensures m.Valid()
    ensures Added(m0, own0, m.mem, m.own, root, if ok then want[a / PGSIZE := (content, WithV(perm))] else want)
    ensures |m.free| + 2 >= |old(m.free)| && (!ok ==> |old(m.free)| < 2)
  {
    hide Tables, Chain, Lists, Added, MapsTo, SameXlate, Xlate, MayMap;
    ghost var page := a / PGSIZE;
    var res, done := m.Mappages(root, a, PGSIZE, q, perm);
    if res != Mapped {
      AddedBackOut(m0, own0, m1, own1, q, content, m.mem, m.own, Filled(JUNK_FREED)[0 := m.freelist], root, want,
        page, perm);
      PagesPositive(m.mem, m.own, q);
      m.Kfree(q);
      return false;
    }
    MappedIsUser(m1[q := content], own1[q := Other], m.mem, m.own, root, page, q, perm);
    AddedNext(m0, own0, m1, own1, q, content, m.mem, m.own, root, want, page, perm);
    ok := true;
  }

  /**
   The step uvmalloc, uvmcopy and vmfault share: kalloc a page, fill it, map
   it; on failure give it back.
   */
  method AddPage(m: Memory, root: nat, a: nat, content: seq<nat>, perm: nat,
                 ghost m0: Mem, ghost own0: Owners, ghost want: Want) returns (ok: bool)
    requires m.Valid() && Added(m0, own0, m.mem, m.own, root, want) && |content| == ENTRIES && perm < 1024
    requires a % PGSIZE == 0 && a / PGSIZE < PAGES - 2 && a / PGSIZE !in want && Xlate(m0, root, a / PGSIZE).None?
    modifies m
    ensures m.Valid()
    ensures Added(m0, own0, m.mem, m.own, root, if ok then want[a / PGSIZE := (content, WithV(perm))] else want)
    ensures |m.free| + 3 >= |old(m.free)| && (!ok ==> |old(m.free)| < 3)
  {
    hide Tables, Chain, Lists, Added, SameXlate, Xlate, MayMap;
    ghost var m1, own1, page := m.mem, m.own, a / PGSIZE;
    AddedFacts(m0, own0, m1, own1, root, want);
    var q := m.Kalloc();
    if q == 0 {
      return false;
    }
    HeldPage(m1, own1, m.mem, m.own, q, content, root, page);
    ChainData(m.mem, m.own, m.freelist, m.free, q, content);
    m.mem := m.mem[q := content];
    ok := MapOrGiveBack(m, root, a, q, perm, content, m0, own0, m1, own1, want);
  }

  /** The page kalloc returned may be filled, and is the kernel's to map. */
  lemma HeldPage(m1: Mem, own1: Owners, m2: Mem, own2: Owners, q: nat, content: seq<nat>, r: nat, page: nat)
    requires IsRoot(own1, r) && page < PAGES && Tables(m1, own1) && q in own1 && own1[q].Free? && |content| == ENTRIES
    requires Tables(m2, own2) && own2 == own1[q := Other] && m2 == m1[q := Filled(JUNK_FRESH)]
    ensures m2[q := content] == m1[q := content] && Tables(m2[q := content], own2)
    ensures SameXlate(m1, m1[q := content], own1)
    ensures q % PGSIZE == 0 && MayMap(own2, page, 1, q) && IsRoot(own2, r)
    ensures Xlate(m1[q := content], r, page) == Xlate(m1, r, page)
  {
    DataChange(m2, own2, q, content);
    DataChange(m1, own1, q, content);
    PagesPositive(m1, own1, q);
  }

  /** Pages needed to hold sz bytes. */
  function PagesFor(sz: nat): nat { RoundUp(sz) / PGSIZE }

  lemma PagesForFacts(sz: nat, k: nat)
    ensures RoundUp(sz) == PagesFor(sz) * PGSIZE && RoundUp(sz) % PGSIZE == 0
    ensures k * PGSIZE < sz <==> k < PagesFor(sz)
  {
  }

  /** uvmdealloc: every page wholly above newsz goes back to kalloc. */
  method Uvmdealloc(m: Memory, root: nat, oldsz: nat, newsz: nat) returns (r: nat)
    requires m.Valid() && IsRoot(m.own, root) && oldsz <= (PAGES - 2) * PGSIZE
    modifies m
    ensures m.Valid()
    ensures r == if newsz < oldsz then newsz else oldsz
    ensures newsz >= oldsz ==> m.mem == old(m.mem) && m.own == old(m.own)
    ensures newsz < oldsz ==>
      Unmaps(old(m.mem), old(m.own), m.mem, m.own, root, PagesFor(newsz), Growth(newsz, oldsz), Free)
  {
    hide Tables, Chain, Lists, Unmaps;
    if newsz >= oldsz {
      return oldsz;
    }
    PagesForFacts(newsz, 0);
    PagesForFacts(oldsz, 0);
    assert PagesFor(newsz) <= PagesFor(oldsz) <= PAGES - 2;
    if RoundUp(newsz) < RoundUp(oldsz) {
      var npages := (RoundUp(oldsz) - RoundUp(newsz)) / PGSIZE;
      m.Uvmunmap(root, RoundUp(newsz), npages, true);
    } else {
      UnmapsNone(m.mem, m.own, root, PagesFor(newsz), Free);
    }
    r := newsz;
  }

  /** k zeroed pages from page0 on. */
  function ZeroPages(page0: nat, k: nat, flags: nat): (w: Want)
    ensures forall page :: page in w <==> page0 <= page < page0 + k
    ensures forall page :: page in w ==> w[page] == (Filled(0), flags)
  {
    if k == 0 then map[] else ZeroPages(page0, k - 1, flags)[page0 + k - 1 := (Filled(0), flags)]
  }

  function Growth(oldsz: nat, newsz: nat): nat {
    if PagesFor(oldsz) < PagesFor(newsz) then PagesFor(newsz) - PagesFor(oldsz) else 0
  }

  /** uvmalloc's uvmdealloc when a page could not be added. */
  method UndoGrowth(m: Memory, root: nat, a: nat, start: nat, ghost m0: Mem, ghost own0: Owners,
                    ghost page0: nat, ghost k: nat, ghost flags: nat)
    requires m.Valid() && Added(m0, own0, m.mem, m.own, root, ZeroPages(page0, k, flags))
    requires a == (page0 + k) * PGSIZE && start == page0 * PGSIZE && page0 + k <= PAGES - 2
    requires forall page :: page0 <= page < page0 + k ==> Xlate(m0, root, page).None?
    modifies m
    ensures m.Valid() && Grown(m0, own0, m.mem, m.own)
  {
    hide Tables, Chain, Lists, Added, Unmaps, Grown, Xlate;
    ghost var m1, own1 := m.mem, m.own;
    AddedFacts(m0, own0, m1, own1, root, ZeroPages(page0, k, flags));
    ExactPages(page0 + k);
    ExactPages(page0);
    var _ := Uvmdealloc(m, root, a, start);
    if k == 0 { UnmapsNone(m1, own1, root, page0, Free); }
    AddedUndone(m0, own0, m1, own1, m.mem, m.own, root, ZeroPages(page0, k, flags), page0, k);
  }

  lemma ExactPages(n: nat)
    ensures PagesFor(n * PGSIZE) == n
  {
    PagesForFacts(n * PGSIZE, n);
    PagesForFacts(n * PGSIZE, PagesFor(n * PGSIZE));
  }

  /**
   uvmalloc.  It returns oldsz for a smaller newsz, newsz when every page of
   the growth has been added zeroed, and 0 when memory ran out, with every
   mapping it made undone: for a newsz above 0 the result is 0 exactly then.
   */
  method Uvmalloc(m: Memory, root: nat, oldsz: nat, newsz: nat, xperm: nat) returns (r: nat, ghost ok: bool)
    requires m.Valid() && IsRoot(m.own, root) && newsz <= (PAGES - 2) * PGSIZE
    requires xperm in {0, PTE_W, PTE_X, PTE_W + PTE_X}
    requires forall page :: PagesFor(oldsz) <= page < PagesFor(newsz) ==> Xlate(m.mem, root, page).None?
    modifies m
    ensures m.Valid()
    ensures newsz < oldsz ==> ok && r == oldsz && m.mem == old(m.mem) && m.own == old(m.own)
    ensures newsz >= oldsz && ok ==>
      && r == newsz
      && Added(old(m.mem), old(m.own), m.mem, m.own, root,
               ZeroPages(PagesFor(oldsz), Growth(oldsz, newsz), WithV(PTE_R + PTE_U + xperm)))
    ensures !ok ==> r == 0 && Grown(old(m.mem), old(m.own), m.mem, m.own)
    ensures ok <==> r != 0 || newsz == 0
    ensures !ok ==> |old(m.free)| < 3 * Growth(oldsz, newsz)
  {
    hide Tables, Chain, Lists, Added, Unmaps, Grown, Xlate, WithV, RoundUp;
    ok := true;
    if newsz < oldsz {
      return oldsz, true;
    }
    ghost var m0, own0, page0, flags := m.mem, m.own, PagesFor(oldsz), WithV(PTE_R + PTE_U + xperm);
    PagesForFacts(oldsz, 0);
    AddedNone(m.mem, m.own, root);
    ghost var k := 0;
    var start := RoundUp(oldsz);
    var a := start;
    while a < newsz
      invariant a == (page0 + k) * PGSIZE && page0 + k <= Max(page0, PagesFor(newsz)) && m.Valid()
      invariant Added(m0, own0, m.mem, m.own, root, ZeroPages(page0, k, flags))
      invariant |m.free| + 3 * k >= |old(m.free)|
      decreases PagesFor(newsz) - page0 - k
    {
      PagesForFacts(newsz, page0 + k);
      PagesForFacts((PAGES - 2) * PGSIZE, page0 + k);
      var added := AddPage(m, root, a, Filled(0), PTE_R + PTE_U + xperm, m0, own0, ZeroPages(page0, k, flags));
      if !added {
        UndoGrowth(m, root, a, start, m0, own0, page0, k, flags);
        return 0, false;
      }
      a := a + PGSIZE;
      k := k + 1;
    }
    PagesForFacts(newsz, page0 + k);
    return newsz, true;
  }

  function ContentOf(mem: Mem, p: nat): seq<nat> {
    if p in mem then mem[p] else Filled(0)
  }

  /** A copy of the first k pages of `src`: contents and flags of those that are mapped. */
  function CopyOf(mem: Mem, src: nat, k: nat): (w: Want)
    ensures forall page :: page in w <==> 0 <= page < k && Xlate(mem, src, page).Some?
    ensures forall page :: page in w ==>
      w[page] == (ContentOf(mem, Xlate(mem, src, page).value.0), Xlate(mem, src, page).value.1)
  {
    if k == 0 then map[] else
      var w, x := CopyOf(mem, src, k - 1), Xlate(mem, src, k - 1);
      if x.Some? then w[k - 1 := (ContentOf(mem, x.value.0), x.value.1)] else w
  }

  lemma FlagsHaveV(pte: nat)
    requires V(pte)
    ensures WithV(Flags(pte)) == Flags(pte) && Flags(pte) < 1024
  {
    var q, f := pte / 1024, pte % 1024;
    assert pte == q * 1024 + f;
    OddRest(q, f);
  }

  lemma OddRest(q: nat, f: nat)
    ensures (q * 1024 + f) % 2 == f % 2
  {
    assert q * 1024 + f == 2 * (512 * q) + f;
  }

  /** What uvmcopy reads through the parent's table is what was there at the start. */
  lemma ParentKept(m0: Mem, own0: Owners, m1: Mem, own1: Owners, src: nat, dst: nat, want: Want, page: nat)
    requires Tables(m0, own0) && Added(m0, own0, m1, own1, dst, want) && IsRoot(own0, src) && src != dst
      && page < PAGES - 2
    ensures IsRoot(own1, src) && Xlate(m1, src, page) == Xlate(m0, src, page)
    ensures Xlate(m0, src, page).Some? ==>
      var q := Xlate(m0, src, page).value.0; q in m1 && q in m0 && m1[q] == m0[q] && |m0[q]| == ENTRIES
  {
    if Xlate(m0, src, page).Some? {
      XlateOwner(m0, own0, src, page);
    }
  }

  /** Reading the entry that walk finds gives the translation. */
  lemma WalkMeans(mem: Mem, own: Owners, r: nat, page: nat)
    requires Tables(mem, own)
    ensures var l := LowPage(mem, r, page);
      Xlate(mem, r, page) == if l != 0 && V(Entry(mem, l, Px(0, page)))
                             then Some((Pa(Entry(mem, l, Px(0, page))), Flags(Entry(mem, l, Px(0, page))))) else None
  {
    ZeroIsNoPage(mem, own);
  }

  /** One turn of uvmcopy's loop. */
  method CopyPage(m: Memory, src: nat, dst: nat, i: nat, ghost m0: Mem, ghost own0: Owners, ghost k: nat)
    returns (ok: bool)
    requires m.Valid() && Tables(m0, own0) && IsRoot(own0, src) && src != dst && i == k * PGSIZE && k < PAGES - 2
    requires Added(m0, own0, m.mem, m.own, dst, CopyOf(m0, src, k)) && Xlate(m0, dst, k).None?
    modifies m
    ensures m.Valid()
    ensures Added(m0, own0, m.mem, m.own, dst, CopyOf(m0, src, if ok then k + 1 else k))
    ensures |m.free| + 3 >= |old(m.free)| && (!ok ==> |old(m.free)| < 3)
  {
    hide Tables, Chain, Lists, Added, Grown, Xlate, V, Pa, Flags, WithV, LowPage;
    ParentKept(m0, own0, m.mem, m.own, src, dst, CopyOf(m0, src, k), k);
    ZeroIsNoPage(m.mem, m.own);
    WalkMeans(m.mem, m.own, src, k);
    var r := m.Walk(src, i, false);
    if r.None? {
      return true;
    }
    var (l, j) := r.value;
    PagesPositive(m.mem, m.own, l);
    var pte := m.mem[l][j];
    if !V(pte) {
      return true;
    }
    FlagsHaveV(pte);
    var pa, flags := Pa(pte), Flags(pte);
    ok := AddPage(m, dst, i, m.mem[pa], flags, m0, own0, CopyOf(m0, src, k));
  }

  /** uvmcopy: the child gains a copy of every mapped page below sz, or nothing. */
  method Uvmcopy(m: Memory, src: nat, dst: nat, sz: nat) returns (ok: bool)
    requires m.Valid() && IsRoot(m.own, src) && IsRoot(m.own, dst) && src != dst && sz <= (PAGES - 2) * PGSIZE
    requires forall page :: 0 <= page < PagesFor(sz) ==> Xlate(m.mem, dst, page).None?
    modifies m
    ensures m.Valid()
    ensures ok ==> Added(old(m.mem), old(m.own), m.mem, m.own, dst, CopyOf(old(m.mem), src, PagesFor(sz)))
    ensures !ok ==> Grown(old(m.mem), old(m.own), m.mem, m.own) && |old(m.free)| < 3 * PagesFor(sz)
  {
    hide Tables, Chain, Lists, Added, Unmaps, Grown, Xlate;
    ghost var m0, own0 := m.mem, m.own;
    AddedNone(m0, own0, dst);
    var i := 0;
    ghost var k := 0;
    PagesForFacts((PAGES - 2) * PGSIZE, 0);
    while i < sz
      invariant i == k * PGSIZE && k <= PagesFor(sz) && m.Valid()
      invariant Added(m0, own0, m.mem, m.own, dst, CopyOf(m0, src, k)) && |m.free| + 3 * k >= |old(m.free)|
      decreases PagesFor(sz) - k
    {
      PagesForFacts(sz, k);
      PagesForFacts((PAGES - 2) * PGSIZE, k);
      var added := CopyPage(m, src, dst, i, m0, own0, k);
      if !added {
        ghost var m1, own1 := m.mem, m.own;
        AddedFacts(m0, own0, m1, own1, dst, CopyOf(m0, src, k));
        m.Uvmunmap(dst, 0, i / PGSIZE, true);
        AddedUndone(m0, own0, m1, own1, m.mem, m.own, dst, CopyOf(m0, src, k), 0, k);
        return false;
      }
      i := i + PGSIZE;
      k := k + 1;
    }
    PagesForFacts(sz, k);
    ok := true;
  }

  /**
   What a successful uvmcopy means: the child's page holds the parent's bytes
   with the parent's flags, on a page of its own, and no page serves twice.
   */
  lemma CopyMeans(m0: Mem, own0: Owners, m1: Mem, own1: Owners, src: nat, dst: nat, k: nat, page: nat, page': nat)
    requires Tables(m0, own0) && Tables(m1, own1) && IsRoot(own0, src) && src != dst && k <= PAGES - 2
    requires Added(m0, own0, m1, own1, dst, CopyOf(m0, src, k)) && page < k && page' < k
    requires Xlate(m0, src, page).Some?
    ensures Xlate(m1, src, page) == Xlate(m0, src, page) && Xlate(m1, dst, page).Some?
    ensures var (p, f), (q, g) := Xlate(m1, src, page).value, Xlate(m1, dst, page).value;
      && f == g && p in m1 && q in m1 && m1[q] == m1[p] == m0[p]
      && p != q && q in own0 && own0[q].Free? && own1[q].User?
    ensures page' != page && Xlate(m1, dst, page').Some? ==>
      Xlate(m1, dst, page').value.0 != Xlate(m1, dst, page).value.0
  {
    var want := CopyOf(m0, src, k);
    ParentKept(m0, own0, m1, own1, src, dst, want, page);
    XlateOwner(m0, own0, src, page);
    assert IsRoot(own0, dst) && page in want;
    assert Fresh(own0, m1, own1, dst, page, want[page]);
    AddedFacts(m0, own0, m1, own1, dst, want);
    if page' != page && Xlate(m1, dst, page').Some? {
      OnePageOneEntry(m1, own1, dst, page, page');
    }
  }

  lemma OnePageOneEntry(mem: Mem, own: Owners, r: nat, page: nat, page': nat)
    requires Tables(mem, own) && IsRoot(own, r) && page < PAGES - 2 && page' < PAGES - 2 && page != page'
    requires Xlate(mem, r, page).Some? && Xlate(mem, r, page').Some?
    ensures Xlate(mem, r, page).value.0 != Xlate(mem, r, page').value.0
  {
    ZeroIsNoPage(mem, own);
    EntryFacts(mem, own, r, page);
    EntryFacts(mem, own, r, page');
    if LowPage(mem, r, page) == LowPage(mem, r, page') && Px(0, page) == Px(0, page') {
      SamePath(mem, own, r, page, r, page');
    }
  }

  /** Nothing is mapped. */
  ghost predicate Empty(mem: Mem, r: nat) {
    forall page :: 0 <= page < PAGES ==> Xlate(mem, r, page).None?
  }

  /** A blank page of the kernel's becomes a top-level table with nothing mapped. */
  lemma NewRoot(mem: Mem, own: Owners, p: nat)
    requires Tables(mem, own) && p in own && own[p].Other? && Blank(mem, p)
    ensures Tables(mem, own[p := Root])
    ensures Empty(mem, p)
  {
    var own' := own[p := Root];
    forall q | q in own' ensures UpOk(mem, own', q) {
      assert UpOk(mem, own, q);
    }
    forall q, i | q in own' && 0 <= i < ENTRIES ensures DownOk(mem, own', q, i) {
      assert DownOk(mem, own, q, i);
      if q == p { assert !V(Entry(mem, p, i)); }
    }
    ZeroIsNoPage(mem, own);
    forall page | 0 <= page < PAGES ensures Xlate(mem, p, page).None? {
      assert !V(Entry(mem, p, Px(2, page)));
    }
  }

  /** uvmcreate: an empty address space, or 0 when no page is free. */
  method Uvmcreate(m: Memory) returns (r: nat)
    requires m.Valid()
    modifies m
    ensures m.Valid() && SameXlate(old(m.mem), m.mem, old(m.own))
    ensures r == 0 <==> old(m.free) == []
    ensures r == 0 ==> m.own == old(m.own)
    ensures r != 0 ==> r in old(m.own) && old(m.own)[r].Free? && m.own == old(m.own)[r := Root]
    ensures r != 0 ==> IsRoot(m.own, r) && Empty(m.mem, r)
  {
    hide Tables, Chain, Lists, Xlate;
    ghost var m0, own0 := m.mem, m.own;
    r := m.Kalloc();
    if r != 0 {
      ClearFresh(m0, own0, m.mem, m.own, r);
      ChainData(m.mem, m.own, m.freelist, m.free, r, Filled(0));
      ListsRetype(m.own, m.free, r, Root);
      m.mem := m.mem[r := Filled(0)];
      m.own := m.own[r := Root];
    } else {
      GrownReflexive(m0, own0);
    }
  }

  lemma ClearFresh(m0: Mem, own0: Owners, m1: Mem, own1: Owners, r: nat)
    requires Tables(m0, own0) && r in own0 && own0[r].Free? && Tables(m1, own1)
    requires own1 == own0[r := Other] && m1 == m0[r := Filled(JUNK_FRESH)]
    ensures Tables(m1[r := Filled(0)], own1[r := Root]) && SameXlate(m0, m1[r := Filled(0)], own0)
    ensures Empty(m1[r := Filled(0)], r)
  {
    DataChange(m1, own1, r, Filled(0));
    assert m1[r := Filled(0)] == m0[r := Filled(0)];
    DataChange(m0, own0, r, Filled(0));
    BlankZero(m1[r := Filled(0)], r);
    NewRoot(m1[r := Filled(0)], own1, r);
  }
}
