/** kalloc.c and vm.c over one physical memory. */
module Vm {
  import opened Wrappers
  import opened Sv39
  import opened PageTable

  const JUNK_FREED := 0x0101_0101_0101_0101
  const JUNK_FRESH := 0x0505_0505_0505_0505

  function Filled(word: nat): (page: seq<nat>)
    ensures |page| == ENTRIES
  {
    seq(ENTRIES, i => word)
  }

  function At(free: seq<nat>, i: nat): nat {
    if i < |free| then free[i] else 0
  }

  /** kmem.freelist threads the free pages through their first words. */
  ghost predicate Chain(mem: Mem, freelist: nat, free: seq<nat>) {
    && freelist == At(free, 0)
    && forall i :: 0 <= i < |free| ==> Entry(mem, free[i], 0) == At(free, i + 1)
  }

  /** The list holds exactly the free pages, each once. */
  ghost predicate Lists(own: Owners, free: seq<nat>) {
    && (forall i, j :: 0 <= i < j < |free| ==> free[i] != free[j])
    && (forall p :: p in free ==> p in own)
    && (forall p :: p in own ==> (own[p].Free? <==> p in free))
  }

  /** What walk may do to ownership: free pages become tables, nothing else changes hands. */
  ghost predicate OnlyTablesAdded(own: Owners, own': Owners) {
    && own'.Keys == own.Keys
    && (forall p :: p in own && !own[p].Free? ==> own'[p] == own[p])
    && (forall p :: p in own && own[p].Free? ==> own'[p].Free? || own'[p].Mid? || own'[p].Low?)
  }

  /** Pages in use that are not tables keep their contents. */
  ghost predicate SameData(mem: Mem, own: Owners, mem': Mem) {
    forall p :: p in own && (own[p].User? || own[p].Other?) ==> p in mem && p in mem' && mem'[p] == mem[p]
  }

  /** walk changed no translation and took nothing but free pages. */
  ghost predicate Grown(mem: Mem, own: Owners, mem': Mem, own': Owners) {
    OnlyTablesAdded(own, own') && SameData(mem, own, mem') && SameXlate(mem, mem', own)
  }

  lemma GrownReflexive(mem: Mem, own: Owners)
    requires Tables(mem, own)
    ensures Grown(mem, own, mem, own)
  {
  }

  lemma GrownTransitive(mem: Mem, own: Owners, mem': Mem, own': Owners, mem'': Mem, own'': Owners)
    requires Grown(mem, own, mem', own') && Grown(mem', own', mem'', own'')
    ensures Grown(mem, own, mem'', own'')
  {
    forall r, page | IsRoot(own, r) && 0 <= page < PAGES ensures Xlate(mem'', r, page) == Xlate(mem, r, page) {
      assert IsRoot(own', r);
      assert Xlate(mem', r, page) == Xlate(mem, r, page);
    }
  }

  lemma ListsRetype(own: Owners, free: seq<nat>, p: nat, o: Owner)
    requires Lists(own, free) && p in own && !own[p].Free? && !o.Free?
    ensures Lists(own[p := o], free)
  {
  }

  lemma ChainSetEntry(mem: Mem, own: Owners, freelist: nat, free: seq<nat>, p: nat, i: nat, pte: nat)
    requires Chain(mem, freelist, free) && Lists(own, free) && p in own && !own[p].Free? && p in mem && i < |mem[p]|
    ensures Chain(SetEntry(mem, p, i, pte), freelist, free)
  {
  }

  lemma ChainData(mem: Mem, own: Owners, freelist: nat, free: seq<nat>, p: nat, content: seq<nat>)
    requires Chain(mem, freelist, free) && Lists(own, free) && p in own && !own[p].Free?
    ensures Chain(mem[p := content], freelist, free)
  {
  }

  /** kalloc's page, cleared and installed by walk: what the two writes amount to. */
  lemma InstallTable(mem: Mem, own: Owners, p: nat, i: nat, c: nat)
    requires Tables(mem, own) && p in own && (own[p].Root? || own[p].Mid?)
      && i < (if own[p].Root? then HALF else ENTRIES)
    requires !V(Entry(mem, p, i)) && c in own && own[c].Free?
    ensures var own1, mem1 := own[c := Other], mem[c := Filled(JUNK_FRESH)];
      Tables(mem1, own1) ==>
        && Tables(mem1[c := Filled(0)], own1)
        && p in mem1[c := Filled(0)] && i < |mem1[c := Filled(0)][p]|
        && var mem2 := SetEntry(mem1[c := Filled(0)], p, i, MakePte(c, 0));
           Tables(mem2, own1[c := ChildOf(own, p, i)]) && Grown(mem, own, mem2, own1[c := ChildOf(own, p, i)])
           && Child(mem2, p, i) == c
  {
    var own1, mem1 := own[c := Other], mem[c := Filled(JUNK_FRESH)];
    if Tables(mem1, own1) {
      DataChange(mem1, own1, c, Filled(0));
      var mem0 := mem1[c := Filled(0)];
      assert mem0 == mem[c := Filled(0)];
      BlankZero(mem0, c);
      AddTable(mem0, own1, p, i, c);
      var mem2 := SetEntry(mem0, p, i, MakePte(c, 0));
      MakePteRoundTrip(c, 0);
      DataChange(mem, own, c, Filled(0));
      forall r, page | IsRoot(own, r) && 0 <= page < PAGES ensures Xlate(mem2, r, page) == Xlate(mem, r, page) {
        AddTableSameXlate(mem0, own1, p, i, c, r, page);
      }
    }
  }

  lemma BlankZero(mem: Mem, c: nat)
    requires c in mem && mem[c] == Filled(0)
    ensures Blank(mem, c)
  {
  }

  lemma HeadPositive(mem: Mem, own: Owners, freelist: nat, free: seq<nat>)
    requires Tables(mem, own) && Chain(mem, freelist, free) && Lists(own, free)
    ensures freelist != 0 <==> free != []
    ensures free != [] ==> freelist == free[0] && freelist in own && own[freelist].Free?
  {
    if free != [] {
      assert free[0] in free;
      PagesPositive(mem, own, free[0]);
    }
  }

  lemma TableEntriesKept(mem: Mem, own: Owners, p: nat, i: nat, c: nat, junk: seq<nat>, pte: nat)
    requires p in mem && i < |mem[p]| && p in own && IsTable(own[p]) && c in own && !IsTable(own[c])
    ensures p in mem[c := junk] && mem[c := junk][p] == mem[p]
    ensures forall q, j :: q in own && IsTable(own[q]) && (q != p || j != i) ==>
      Entry(SetEntry(mem[c := junk], p, i, pte), q, j) == Entry(mem, q, j)
  {
  }

  lemma OwnerKept(mem: Mem, own: Owners, mem': Mem, own': Owners, p: nat)
    requires Grown(mem, own, mem', own') && p in own && !own[p].Free?
    ensures p in own' && own'[p] == own[p]
  {
  }

  lemma XlateKept(mem: Mem, own: Owners, mem': Mem, own': Owners, r: nat, page: nat)
    requires Grown(mem, own, mem', own') && IsRoot(own, r) && page < PAGES
    ensures Xlate(mem', r, page) == Xlate(mem, r, page)
  {
  }

  lemma ListsSameFree(own: Owners, own': Owners, free: seq<nat>)
    requires Lists(own, free) && own'.Keys == own.Keys && forall p :: p in own ==> (own'[p].Free? <==> own[p].Free?)
    ensures Lists(own', free)
  {
  }

  datatype MapResult = Mapped | NoMemory | Remap

  function WithV(perm: nat): nat {
    if perm % 2 == 1 then perm else perm + 1
  }

  /** mem' is mem with n pages of r, from page0 on, mapped to consecutive physical pages. */
  ghost predicate MapsRange(mem: Mem, mem': Mem, own: Owners, r: nat, page0: nat, n: nat, pa: nat, perm: nat) {
    forall r', page :: IsRoot(own, r') && 0 <= page < PAGES ==>
      Xlate(mem', r', page) == if r' == r && page0 <= page < page0 + n
                               then Some((pa + (page - page0) * PGSIZE, WithV(perm)))
                               else Xlate(mem, r', page)
  }

  predicate InRange(p: nat, pa: nat, n: nat) {
    pa <= p < pa + n * PGSIZE && (p - pa) % PGSIZE == 0
  }

  /** Mapping gives the mapped pages to the table; free pages may become tables. */
  ghost predicate OwnersAfterMap(own: Owners, own': Owners, pa: nat, n: nat) {
    && own'.Keys == own.Keys
    && (forall p :: p in own && own[p].Free? ==> own'[p].Free? || own'[p].Mid? || own'[p].Low?)
    && (forall p :: p in own && !own[p].Free? && !InRange(p, pa, n) ==> own'[p] == own[p])
    && (forall p :: p in own && !own[p].Free? && InRange(p, pa, n) ==>
          own'[p] == own[p] || (own[p].Other? && own'[p].User?))
  }

  /** Each page of the range is the kernel's to give away, or goes to a special slot. */
  ghost predicate MayMap(own: Owners, page0: nat, n: nat, pa: nat) {
    forall k :: 0 <= k < n ==> SpecialPage(page0 + k) || (pa + k * PGSIZE in own && own[pa + k * PGSIZE].Other?)
  }

  /** The effect of writing a valid entry after walk. */
  lemma MapOneEffect(mem0: Mem, own0: Owners, mem: Mem, own: Owners, r: nat, page: nat, pa: nat, perm: nat)
    requires Grown(mem0, own0, mem, own) && Tables(mem, own) && IsRoot(own, r) && page < PAGES
    requires LowPage(mem, r, page) != 0 && pa % PGSIZE == 0 && perm < 1024 && !V(Leaf(mem, r, page))
    requires SpecialPage(page) || (pa in own0 && own0[pa].Other?)
    ensures var l, i, pte := LowPage(mem, r, page), Px(0, page), MakePte(pa, perm);
      && l in own && own[l].Low? && l in mem && i < |mem[l]| && Pa(pte) == pa
      && Tables(SetEntry(mem, l, i, pte), OwnMapped(own, l, i, pa))
      && MapsRange(mem0, SetEntry(mem, l, i, pte), own0, r, page, 1, pa, perm)
      && OwnersAfterMap(own0, OwnMapped(own, l, i, pa), pa, 1)
      && SameData(mem0, own0, SetEntry(mem, l, i, pte))
      && OwnMapped(own, l, i, pa).Keys == own.Keys
      && (forall p :: p in own ==> (OwnMapped(own, l, i, pa)[p].Free? <==> own[p].Free?))
  {
    hide Tables, MapsRange, SameXlate, Special, OwnMapped, OwnersAfterMap, SameData, Grown, MakePte, Pa, V, Xlate,
      LowPage, Leaf;
    MapOneTables(mem0, own0, mem, own, r, page, pa, perm);
    MapOneOwners(mem0, own0, mem, own, LowPage(mem, r, page), Px(0, page), pa, MakePte(pa, perm));
    MapOneXlate(mem0, own0, mem, own, r, page, pa, perm);
  }

  lemma MapOneTables(mem0: Mem, own0: Owners, mem: Mem, own: Owners, r: nat, page: nat, pa: nat, perm: nat)
    requires Grown(mem0, own0, mem, own) && Tables(mem, own) && IsRoot(own, r) && page < PAGES
    requires LowPage(mem, r, page) != 0 && pa % PGSIZE == 0 && perm < 1024 && !V(Leaf(mem, r, page))
    requires SpecialPage(page) || (pa in own0 && own0[pa].Other?)
    ensures var l, i, pte := LowPage(mem, r, page), Px(0, page), MakePte(pa, perm);
      && l in own && own[l].Low? && l in mem && i < |mem[l]| && Pa(pte) == pa
      && Tables(SetEntry(mem, l, i, pte), OwnMapped(own, l, i, pa))
      && (Special(own, l, i) || (pa in own0 && own0[pa].Other?))
  {
    var l, i, pte := LowPage(mem, r, page), Px(0, page), MakePte(pa, perm);
    MakePteRoundTrip(pa, perm);
    PathOwner(mem, own, r, page);
    PagesPositive(mem, own, l);
    SpecialIff(mem, own, r, page);
    MapLeaf(mem, own, l, i, pte);
  }

  lemma MapOneOwners(mem0: Mem, own0: Owners, mem: Mem, own: Owners, l: nat, i: nat, pa: nat, pte: nat)
    requires Grown(mem0, own0, mem, own) && l in own && own[l].Low? && l in mem && i < |mem[l]|
    requires Special(own, l, i) || (pa in own0 && own0[pa].Other?)
    ensures OwnersAfterMap(own0, OwnMapped(own, l, i, pa), pa, 1) && SameData(mem0, own0, SetEntry(mem, l, i, pte))
    ensures OwnMapped(own, l, i, pa).Keys == own.Keys
    ensures forall p :: p in own ==> (OwnMapped(own, l, i, pa)[p].Free? <==> own[p].Free?)
  {
    hide SameXlate, Special;
  }

  lemma MapOneXlate(mem0: Mem, own0: Owners, mem: Mem, own: Owners, r: nat, page: nat, pa: nat, perm: nat)
    requires Grown(mem0, own0, mem, own) && Tables(mem, own) && IsRoot(own, r) && page < PAGES
    requires LowPage(mem, r, page) != 0 && pa % PGSIZE == 0 && perm < 1024
    requires LowPage(mem, r, page) in mem && Px(0, page) < |mem[LowPage(mem, r, page)]|
    ensures MapsRange(mem0, SetEntry(mem, LowPage(mem, r, page), Px(0, page), MakePte(pa, perm)), own0, r, page, 1,
      pa, perm)
  {
    var l, i, pte := LowPage(mem, r, page), Px(0, page), MakePte(pa, perm);
    MakePteRoundTrip(pa, perm);
    hide Tables, MakePte, V, Pa, Flags;
    forall r', page' | IsRoot(own0, r') && 0 <= page' < PAGES
      ensures Xlate(SetEntry(mem, l, i, pte), r', page') ==
              if r' == r && page <= page' < page + 1 then Some((pa + (page' - page) * PGSIZE, WithV(perm)))
              else Xlate(mem0, r', page')
    {
      OwnerKept(mem0, own0, mem, own, r');
      SetLeafXlate(mem, own, r, page, pte, r', page');
      XlateKept(mem0, own0, mem, own, r', page');
    }
  }

  /** n pages were unmapped and now are mapped, and nothing else in use changed. */
  ghost predicate MapsTo(m0: Mem, own0: Owners, m1: Mem, own1: Owners, r: nat, page0: nat, n: nat, pa: nat, perm: nat) {
    && IsRoot(own0, r) && MapsRange(m0, m1, own0, r, page0, n, pa, perm)
    && OwnersAfterMap(own0, own1, pa, n) && SameData(m0, own0, m1)
    && forall page :: page0 <= page < page0 + n ==> Xlate(m0, r, page).None?
  }

  lemma MapsToNone(mem: Mem, own: Owners, r: nat, page0: nat, pa: nat, perm: nat)
    requires Tables(mem, own) && IsRoot(own, r)
    ensures MapsTo(mem, own, mem, own, r, page0, 0, pa, perm)
  {
  }

  lemma RootSurvivesMap(own: Owners, own': Owners, pa: nat, n: nat, r: nat)
    requires OwnersAfterMap(own, own', pa, n) && IsRoot(own, r)
    ensures IsRoot(own', r)
  {
  }

  lemma MapsToNext(m0: Mem, own0: Owners, m1: Mem, own1: Owners, m2: Mem, own2: Owners, r: nat, page0: nat, k: nat,
                   pa: nat, perm: nat)
    requires MapsTo(m0, own0, m1, own1, r, page0, k, pa, perm) && page0 + k < PAGES
    requires MapsRange(m1, m2, own1, r, page0 + k, 1, pa + k * PGSIZE, perm)
    requires OwnersAfterMap(own1, own2, pa + k * PGSIZE, 1) && SameData(m1, own1, m2)
    requires Xlate(m1, r, page0 + k).None?
    ensures MapsTo(m0, own0, m2, own2, r, page0, k + 1, pa, perm)
  {
    MapsRangeStep(m0, own0, m1, own1, m2, r, page0, k, pa, perm);
    OwnersAfterMapStep(own0, own1, own2, pa, k);
    assert SameData(m0, own0, m2);
    assert Xlate(m1, r, page0 + k) == Xlate(m0, r, page0 + k);
  }

  lemma MapsRangeStep(m0: Mem, own0: Owners, m1: Mem, own1: Owners, m2: Mem, r: nat, page0: nat, k: nat, pa: nat,
                      perm: nat)
    requires MapsRange(m0, m1, own0, r, page0, k, pa, perm) && OwnersAfterMap(own0, own1, pa, k)
    requires MapsRange(m1, m2, own1, r, page0 + k, 1, pa + k * PGSIZE, perm)
    ensures MapsRange(m0, m2, own0, r, page0, k + 1, pa, perm)
  {
    forall r', page | IsRoot(own0, r') && 0 <= page < PAGES
      ensures Xlate(m2, r', page) == if r' == r && page0 <= page < page0 + k + 1
                                     then Some((pa + (page - page0) * PGSIZE, WithV(perm))) else Xlate(m0, r', page)
    {
      RootSurvivesMap(own0, own1, pa, k, r');
      assert Xlate(m1, r', page) == if r' == r && page0 <= page < page0 + k
                                    then Some((pa + (page - page0) * PGSIZE, WithV(perm))) else Xlate(m0, r', page);
    }
  }

  lemma OwnersAfterMapStep(own0: Owners, own1: Owners, own2: Owners, pa: nat, k: nat)
    requires OwnersAfterMap(own0, own1, pa, k) && OwnersAfterMap(own1, own2, pa + k * PGSIZE, 1)
    ensures OwnersAfterMap(own0, own2, pa, k + 1)
  {
  }

  lemma MapsToGrown(m0: Mem, own0: Owners, m1: Mem, own1: Owners, m2: Mem, own2: Owners, r: nat, page0: nat, k: nat,
                    pa: nat, perm: nat)
    requires MapsTo(m0, own0, m1, own1, r, page0, k, pa, perm) && Grown(m1, own1, m2, own2)
    ensures MapsTo(m0, own0, m2, own2, r, page0, k, pa, perm)
  {
    forall r', page | IsRoot(own0, r') && 0 <= page < PAGES ensures Xlate(m2, r', page) == Xlate(m1, r', page) {
      RootSurvivesMap(own0, own1, pa, k, r');
    }
  }

  /** After k pages the next one can be mapped, and is as it was. */
  lemma MapsToReady(m0: Mem, own0: Owners, m1: Mem, own1: Owners, r: nat, page0: nat, k: nat, n: nat, pa: nat,
                    perm: nat)
    requires MapsTo(m0, own0, m1, own1, r, page0, k, pa, perm) && k < n && MayMap(own0, page0, n, pa)
    requires page0 + k < PAGES
    ensures SpecialPage(page0 + k) || (pa + k * PGSIZE in own1 && own1[pa + k * PGSIZE].Other?)
    ensures Xlate(m1, r, page0 + k) == Xlate(m0, r, page0 + k)
    ensures IsRoot(own1, r)
  {
    RootSurvivesMap(own0, own1, pa, k, r);
  }

  lemma PageOfStep(va: nat, k: nat, size: nat)
    requires va % PGSIZE == 0 && k < size / PGSIZE
    ensures (va + k * PGSIZE) / PGSIZE == va / PGSIZE + k && (va + k * PGSIZE) % PGSIZE == 0
    ensures va + k * PGSIZE < va + size
    ensures va + size <= MAXVA ==> va / PGSIZE + k < PAGES
    ensures size % PGSIZE == 0 ==> (va + k * PGSIZE == va + size - PGSIZE <==> k + 1 == size / PGSIZE)
  {
  }

  ghost predicate UnmapsRange(m0: Mem, m1: Mem, own0: Owners, r: nat, page0: nat, n: nat) {
    forall r', page :: IsRoot(own0, r') && 0 <= page < PAGES ==>
      Xlate(m1, r', page) == if r' == r && page0 <= page < page0 + n then None else Xlate(m0, r', page)
  }

  /** Page p is a user page that r maps somewhere in the range. */
  ghost predicate MappedIn(mem: Mem, r: nat, page0: nat, n: nat, p: nat) {
    exists page :: page0 <= page < page0 + n && MappedAt(mem, r, page, p)
  }

  ghost predicate MappedAt(mem: Mem, r: nat, page: int, p: nat) {
    0 <= page && !SpecialPage(page) && Xlate(mem, r, page).Some? && Xlate(mem, r, page).value.0 == p
  }

  /** n pages are unmapped; the user pages they mapped pass to o, nothing else changes hands or contents. */
  ghost predicate Unmaps(m0: Mem, own0: Owners, m1: Mem, own1: Owners, r: nat, page0: nat, n: nat, o: Owner) {
    && IsRoot(own0, r) && UnmapsRange(m0, m1, own0, r, page0, n) && own1.Keys == own0.Keys
    && (forall p :: p in own0 ==> own1[p] == if MappedIn(m0, r, page0, n, p) then o else own0[p])
    && (forall p :: p in own0 && MappedIn(m0, r, page0, n, p) ==> own0[p].User?)
    && (forall p :: p in own0 && (own0[p].User? || own0[p].Other?) && !MappedIn(m0, r, page0, n, p) ==>
          p in m0 && p in m1 && m1[p] == m0[p])
  }

  lemma UnmapsNone(mem: Mem, own: Owners, r: nat, page0: nat, o: Owner)
    requires Tables(mem, own) && IsRoot(own, r)
    ensures Unmaps(mem, own, mem, own, r, page0, 0, o)
  {
  }

  /** A page without a translation is unmapped already. */
  lemma UnmapsAbsent(mem: Mem, own: Owners, r: nat, page: nat, o: Owner)
    requires Tables(mem, own) && IsRoot(own, r) && page < PAGES && Xlate(mem, r, page).None?
    ensures Unmaps(mem, own, mem, own, r, page, 1, o)
  {
    forall p | p in own ensures !MappedIn(mem, r, page, 1, p) {
    }
  }

  lemma MappedInOne(mem: Mem, r: nat, page: nat, p: nat)
    ensures MappedIn(mem, r, page, 1, p) <==> MappedAt(mem, r, page, p)
  {
  }

  /** The valid entry that walk finds for a page, and the page it maps. */
  lemma EntryFacts(mem: Mem, own: Owners, r: nat, page: nat)
    requires Tables(mem, own) && IsRoot(own, r) && page < PAGES && LowPage(mem, r, page) != 0 && V(Leaf(mem, r, page))
    ensures var l, i, q := LowPage(mem, r, page), Px(0, page), Pa(Leaf(mem, r, page));
      && l in own && own[l].Low? && l in mem && |mem[l]| == ENTRIES && V(Entry(mem, l, i)) && q == Pa(mem[l][i])
      && (Special(own, l, i) <==> SpecialPage(page))
      && (SpecialPage(page) || (q in own && own[q] == User(l, i) && q != l && q in mem && q > 0))
  {
    var l, i := LowPage(mem, r, page), Px(0, page);
    PathOwner(mem, own, r, page);
    PagesPositive(mem, own, l);
    SpecialIff(mem, own, r, page);
    assert DownOk(mem, own, l, i);
    if !SpecialPage(page) {
      PagesPositive(mem, own, Pa(Leaf(mem, r, page)));
    }
  }

  /** uvmunmap's *pte = 0 when the mapped page is kept. */
  lemma ClearKept(mem: Mem, own: Owners, r: nat, page: nat)
    requires Tables(mem, own) && IsRoot(own, r) && page < PAGES && LowPage(mem, r, page) != 0 && V(Leaf(mem, r, page))
    ensures var l, i, q := LowPage(mem, r, page), Px(0, page), Pa(Leaf(mem, r, page));
      && l in mem && i < |mem[l]|
      && Tables(SetEntry(mem, l, i, 0), OwnUnmapped(own, l, i, q, Other))
      && Unmaps(mem, own, SetEntry(mem, l, i, 0), OwnUnmapped(own, l, i, q, Other), r, page, 1, Other)
  {
    var l, i, q := LowPage(mem, r, page), Px(0, page), Pa(Leaf(mem, r, page));
    EntryFacts(mem, own, r, page);
    UnmapLeaf(mem, own, l, i, Other);
    hide Tables;
    var own' := OwnUnmapped(own, l, i, q, Other);
    ClearEntryXlate(mem, own, SetEntry(mem, l, i, 0), own', r, page);
    ClearEntryOwners(mem, own, r, page, Other);
    hide UnmapsRange, MappedIn;
    DataKept(mem, own, l, i, 0);
  }

  lemma FreedTables(mem: Mem, own: Owners, l: nat, i: nat, junk: seq<nat>)
    requires Tables(mem, own) && l in own && own[l].Low? && i < ENTRIES && V(Entry(mem, l, i)) && !Special(own, l, i)
    requires |junk| == ENTRIES
    ensures var q := Pa(Entry(mem, l, i));
      && l in mem && |mem[l]| == ENTRIES && l in mem[q := junk] && mem[q := junk][l] == mem[l]
      && Tables(SetEntry(mem[q := junk], l, i, 0), own[q := Free])
      && SameXlate(SetEntry(mem, l, i, 0), SetEntry(mem[q := junk], l, i, 0), own[q := Free])
  {
    var q, m0 := Pa(Entry(mem, l, i)), SetEntry(mem, l, i, 0);
    UnmapLeaf(mem, own, l, i, Free);
    DataChange(m0, own[q := Free], q, junk);
    assert m0[q := junk] == SetEntry(mem[q := junk], l, i, 0);
  }

  /** uvmunmap's kfree and *pte = 0. */
  lemma ClearFreed(mem: Mem, own: Owners, r: nat, page: nat, junk: seq<nat>)
    requires Tables(mem, own) && IsRoot(own, r) && page < PAGES && LowPage(mem, r, page) != 0 && V(Leaf(mem, r, page))
    requires |junk| == ENTRIES && !SpecialPage(page)
    ensures var l, i, q := LowPage(mem, r, page), Px(0, page), Pa(Leaf(mem, r, page));
      && l in mem[q := junk] && i < |mem[q := junk][l]|
      && Tables(SetEntry(mem[q := junk], l, i, 0), own[q := Free])
      && Unmaps(mem, own, SetEntry(mem[q := junk], l, i, 0), own[q := Free], r, page, 1, Free)
  {
    hide Tables, UnmapsRange, MappedIn, Special, SameXlate;
    var l, i, q := LowPage(mem, r, page), Px(0, page), Pa(Leaf(mem, r, page));
    EntryFacts(mem, own, r, page);
    FreedTables(mem, own, l, i, junk);
    ClearEntryXlate(mem, own, SetEntry(mem[q := junk], l, i, 0), own[q := Free], r, page);
    ClearEntryOwners(mem, own, r, page, Free);
    ClearedData(mem, own, r, page, junk);
  }

  /** Data pages other than the one freed keep their contents. */
  lemma ClearedData(mem: Mem, own: Owners, r: nat, page: nat, junk: seq<nat>)
    requires Tables(mem, own) && IsRoot(own, r) && page < PAGES && LowPage(mem, r, page) != 0 && V(Leaf(mem, r, page))
    requires !SpecialPage(page)
    ensures var l, i, q := LowPage(mem, r, page), Px(0, page), Pa(Leaf(mem, r, page));
      && l in mem[q := junk] && i < |mem[q := junk][l]|
      && forall p :: p in own && (own[p].User? || own[p].Other?) && !MappedIn(mem, r, page, 1, p) ==>
           p in mem && p in SetEntry(mem[q := junk], l, i, 0) && SetEntry(mem[q := junk], l, i, 0)[p] == mem[p]
  {
    hide Tables, MappedIn, Special;
    var l, i, q := LowPage(mem, r, page), Px(0, page), Pa(Leaf(mem, r, page));
    EntryFacts(mem, own, r, page);
    MappedInOne(mem, r, page, q);
    DataKept(mem, own, l, i, 0);
  }

  lemma DataKept(mem: Mem, own: Owners, l: nat, i: nat, pte: nat)
    requires Tables(mem, own) && l in own && own[l].Low? && i < ENTRIES
    ensures l in mem && i < |mem[l]|
    ensures forall p :: p in own && (own[p].User? || own[p].Other?) ==>
      p in mem && SetEntry(mem, l, i, pte)[p] == mem[p]
  {
  }

  lemma ClearEntryXlate(mem: Mem, own: Owners, m2: Mem, own': Owners, r: nat, page: nat)
    requires Tables(mem, own) && IsRoot(own, r) && page < PAGES && LowPage(mem, r, page) != 0
    requires forall p :: p in own && IsTable(own[p]) ==> p in own' && own'[p] == own[p]
    requires LowPage(mem, r, page) in mem && Px(0, page) < |mem[LowPage(mem, r, page)]|
    requires SameXlate(SetEntry(mem, LowPage(mem, r, page), Px(0, page), 0), m2, own')
    ensures UnmapsRange(mem, m2, own, r, page, 1)
  {
    forall r', page' | IsRoot(own, r') && 0 <= page' < PAGES
      ensures Xlate(m2, r', page') == if r' == r && page <= page' < page + 1 then None else Xlate(mem, r', page')
    {
      SetLeafXlate(mem, own, r, page, 0, r', page');
      assert IsRoot(own', r');
    }
  }

  lemma ClearEntryOwners(mem: Mem, own: Owners, r: nat, page: nat, o: Owner)
    requires Tables(mem, own) && IsRoot(own, r) && page < PAGES && LowPage(mem, r, page) != 0 && V(Leaf(mem, r, page))
    requires LowPage(mem, r, page) in own && own[LowPage(mem, r, page)].Low?
    ensures var l, i, q := LowPage(mem, r, page), Px(0, page), Pa(Leaf(mem, r, page));
      && OwnUnmapped(own, l, i, q, o).Keys == own.Keys
      && (forall p :: p in own ==>
        OwnUnmapped(own, l, i, q, o)[p] == if MappedIn(mem, r, page, 1, p) then o else own[p])
      && (forall p :: p in own && MappedIn(mem, r, page, 1, p) ==> own[p].User?)
  {
    EntryFacts(mem, own, r, page);
    forall p | p in own ensures MappedIn(mem, r, page, 1, p) <==> !SpecialPage(page) && p == Pa(Leaf(mem, r, page)) {
      MappedInOne(mem, r, page, p);
    }
  }

  lemma MappedInNext(mem: Mem, r: nat, page0: nat, k: nat, p: nat)
    ensures MappedIn(mem, r, page0, k + 1, p) <==> MappedIn(mem, r, page0, k, p) || MappedAt(mem, r, page0 + k, p)
  {
    if MappedIn(mem, r, page0, k, p) {
      var page :| page0 <= page < page0 + k && MappedAt(mem, r, page, p);
      assert page < page0 + (k + 1) && MappedAt(mem, r, page, p);
    }
  }

  lemma UnmapsNext(m0: Mem, own0: Owners, m1: Mem, own1: Owners, m2: Mem, own2: Owners, r: nat, page0: nat, k: nat,
                   o: Owner)
    requires Unmaps(m0, own0, m1, own1, r, page0, k, o) && Unmaps(m1, own1, m2, own2, r, page0 + k, 1, o)
    requires page0 + k < PAGES && Unreferenced(o)
    ensures Unmaps(m0, own0, m2, own2, r, page0, k + 1, o)
  {
    hide MappedIn, Xlate;
    forall p | p in own0
      ensures MappedIn(m0, r, page0, k + 1, p) <==> MappedIn(m0, r, page0, k, p) || MappedIn(m1, r, page0 + k, 1, p)
    {
      MappedInSplit(m0, m1, own0, r, page0, k, p);
    }
    UnmapsRangeNext(m0, own0, m1, own1, m2, r, page0, k, o);
    hide UnmapsRange;
  }

  lemma MappedInSplit(m0: Mem, m1: Mem, own0: Owners, r: nat, page0: nat, k: nat, p: nat)
    requires UnmapsRange(m0, m1, own0, r, page0, k) && IsRoot(own0, r) && page0 + k < PAGES
    ensures MappedIn(m0, r, page0, k + 1, p) <==> MappedIn(m0, r, page0, k, p) || MappedIn(m1, r, page0 + k, 1, p)
  {
    assert Xlate(m1, r, page0 + k) == Xlate(m0, r, page0 + k);
    MappedInNext(m0, r, page0, k, p);
    MappedInOne(m1, r, page0 + k, p);
  }

  lemma UnmapsRangeNext(m0: Mem, own0: Owners, m1: Mem, own1: Owners, m2: Mem, r: nat, page0: nat, k: nat, o: Owner)
    requires Unmaps(m0, own0, m1, own1, r, page0, k, o) && UnmapsRange(m1, m2, own1, r, page0 + k, 1)
    ensures UnmapsRange(m0, m2, own0, r, page0, k + 1)
  {
    forall r', page | IsRoot(own0, r') && 0 <= page < PAGES
      ensures Xlate(m2, r', page) == if r' == r && page0 <= page < page0 + k + 1 then None else Xlate(m0, r', page)
    {
      assert IsRoot(own1, r');
    }
  }

  lemma UnmapsKeepsRoot(m0: Mem, own0: Owners, m1: Mem, own1: Owners, r: nat, page0: nat, k: nat, o: Owner, r': nat)
    requires Unmaps(m0, own0, m1, own1, r, page0, k, o) && IsRoot(own0, r')
    ensures IsRoot(own1, r')
  {
  }

  lemma UnmappedNotFree(own: Owners, l: nat, i: nat, q: nat)
    requires Special(own, l, i) || (q in own && own[q].User?)
    ensures OwnUnmapped(own, l, i, q, Other).Keys == own.Keys
    ensures forall p :: p in own ==> (OwnUnmapped(own, l, i, q, Other)[p].Free? <==> own[p].Free?)
  {
  }

  function Addresses(start: nat, n: nat): (s: set<nat>)
    ensures forall p: nat :: p in s <==> InRange(p, start, n)
  {
    if n == 0 then {} else Addresses(start, n - 1) + {start + (n - 1) * PGSIZE}
  }

  /** The first k of n pages are free, the others the kernel's. */
  ghost predicate Handed(own: Owners, start: nat, n: nat, k: nat) {
    && own.Keys == Addresses(start, n)
    && forall p :: p in own ==> own[p] == if InRange(p, start, k) then Free else Other
  }

  /** How many whole pages lie between first, rounded up, and end. */
  function PagesBetween(first: nat, end: nat): nat {
    if RoundUp(first) <= end then (end - RoundUp(first)) / PGSIZE else 0
  }

  lemma PagesBetweenFacts(first: nat, end: nat)
    ensures forall k: nat :: RoundUp(first) + k * PGSIZE + PGSIZE <= end <==> k < PagesBetween(first, end)
  {
  }

  lemma HandedNext(own: Owners, start: nat, n: nat, k: nat)
    requires Handed(own, start, n, k) && k < n
    ensures start + k * PGSIZE in own && own[start + k * PGSIZE] == Other
    ensures Handed(own[start + k * PGSIZE := Free], start, n, k + 1)
  {
    assert InRange(start + k * PGSIZE, start, n);
  }

  class Memory {
    var mem: Mem
    var freelist: nat
    ghost var own: Owners
    ghost var free: seq<nat>

    ghost predicate Valid()
      reads this
    {
      Tables(mem, own) && Chain(mem, freelist, free) && Lists(own, free)
    }

    /** Memory before kinit: every page in the kernel's hands. */
    constructor (start: nat, n: nat)
      requires start > 0 && start % PGSIZE == 0
      ensures Valid() && Handed(own, start, n, 0)
    {
      mem := map k: nat | k in Addresses(start, n) :: Filled(0);
      own := map k: nat | k in Addresses(start, n) :: Other;
      freelist, free := 0, [];
    }

    /** kinit's freerange: every whole page between first, which need not be aligned, and end goes to kfree. */
    method Freerange(first: nat, end: nat, ghost n: nat)
      requires Valid() && Handed(own, RoundUp(first), n, 0) && n == PagesBetween(first, end)
      modifies this
      ensures Valid() && Handed(own, RoundUp(first), n, n)
    {
      hide Tables, Chain, Lists, Handed;
      ghost var start := RoundUp(first);
      PagesBetweenFacts(first, end);
      var p := RoundUp(first);
      ghost var k := 0;
      while p + PGSIZE <= end
        invariant 0 <= k <= n && p == start + k * PGSIZE && Valid() && Handed(own, start, n, k)
      {
        HandedNext(own, start, n, k);
        PagesPositive(mem, own, p);
        DataChange(mem, own, p, Filled(JUNK_FREED)[0 := freelist]);
        OwnerChange(mem[p := Filled(JUNK_FREED)[0 := freelist]], own, p, Free);
        Kfree(p);
        p := p + PGSIZE;
        k := k + 1;
      }
    }

    /** kfree: the page is filled with junk and heads the list. */
    method Kfree(p: nat)
      requires Chain(mem, freelist, free) && Lists(own, free) && p in own && !own[p].Free?
      requires p in mem && p > 0
      modifies this
      ensures Chain(mem, freelist, free) && Lists(own, free)
      ensures mem == old(mem)[p := Filled(JUNK_FREED)[0 := old(freelist)]]
      ensures own == old(own)[p := Free] && free == [p] + old(free)
    {
      mem := mem[p := Filled(JUNK_FREED)];
      mem := SetEntry(mem, p, 0, freelist);
      freelist := p;
      free, own := [p] + free, own[p := Free];
      forall i | 0 <= i < |free| ensures Entry(mem, free[i], 0) == At(free, i + 1) {
        if i > 0 {
          assert old(free)[i - 1] == free[i];
        }
      }
    }

    /** kalloc: the head of the list, or 0. */
    method Kalloc() returns (p: nat)
      requires Valid()
      modifies this
      ensures Valid()
      ensures p == 0 <==> old(free) == []
      ensures p == 0 ==> mem == old(mem) && own == old(own) && free == old(free)
      ensures p != 0 ==> p in old(own) && old(own)[p].Free? && own == old(own)[p := Other] && free == old(free)[1..]
      ensures p != 0 ==> mem == old(mem)[p := Filled(JUNK_FRESH)] && SameXlate(old(mem), mem, old(own))
    {
      HeadPositive(mem, own, freelist, free);
      p := freelist;
      if p != 0 {
        freelist := mem[p][0];
        DataChange(mem, own, p, Filled(JUNK_FRESH));
        OwnerChange(mem[p := Filled(JUNK_FRESH)], own, p, Other);
        mem := mem[p := Filled(JUNK_FRESH)];
        own, free := own[p := Other], free[1..];
      }
    }

    /** One level of walk: the table below entry i of pt, 0 if there is none and none can be made. */
    method WalkStep(pt: nat, i: nat, alloc: bool) returns (c: nat)
      requires Valid() && pt in own && (own[pt].Root? || own[pt].Mid?)
      requires i < if own[pt].Root? then HALF else ENTRIES
      modifies this
      ensures Valid() && Grown(old(mem), old(own), mem, own)
      ensures c == 0 ==> mem == old(mem) && own == old(own) && free == old(free)
      ensures |free| + 1 >= |old(free)|
      ensures c == 0 <==> !V(Entry(old(mem), pt, i)) && (!alloc || old(free) == [])
      ensures c != 0 ==> c == Child(mem, pt, i) && c in own && own[c] == ChildOf(own, pt, i)
      ensures !alloc || V(Entry(old(mem), pt, i)) ==> mem == old(mem) && own == old(own) && free == old(free)
      ensures forall q, j :: q in old(own) && IsTable(old(own)[q]) && (q != pt || j != i) ==>
        Entry(mem, q, j) == Entry(old(mem), q, j)
    {
      hide Tables, Grown, Chain, Lists;
      GrownReflexive(mem, own);
      PagesPositive(mem, own, pt);
      if V(mem[pt][i]) {
        ChildOwner(mem, own, pt, i);
        PagesPositive(mem, own, Child(mem, pt, i));
        return Pa(mem[pt][i]);
      }
      if !alloc {
        return 0;
      }
      ghost var mem0, own0 := mem, own;
      c := Kalloc();
      if c != 0 {
        InstallTable(mem0, own0, pt, i, c);
        TableEntriesKept(mem0, own0, pt, i, c, Filled(0), MakePte(c, 0));
        assert mem[c := Filled(0)] == mem0[c := Filled(0)];
        ChainData(mem, own, freelist, free, c, Filled(0));
        ChainSetEntry(mem[c := Filled(0)], own, freelist, free, pt, i, MakePte(c, 0));
        ListsRetype(own, free, c, ChildOf(own, pt, i));
        mem := mem[c := Filled(0)];
        mem := SetEntry(mem, pt, i, MakePte(c, 0));
        own := own[c := ChildOf(own, pt, i)];
      }
    }

    /**
     walk: the bottom table and index of the entry for va.  With alloc it makes
     the tables it needs and fails only when no page is free.
     */
    method Walk(root: nat, va: nat, alloc: bool) returns (r: Option<(nat, nat)>)
      requires Valid() && IsRoot(own, root) && va < MAXVA
      modifies this
      ensures Valid() && Grown(old(mem), old(own), mem, own)
      ensures !alloc ==> mem == old(mem) && own == old(own) && free == old(free)
      ensures r.None? <==> LowPage(mem, root, va / PGSIZE) == 0
      ensures r.None? && alloc ==> free == []
      ensures |free| + 2 >= |old(free)| && (alloc && |old(free)| >= 2 ==> r.Some?)
      ensures r.Some? ==>
        && r.value == (LowPage(mem, root, va / PGSIZE), Px(0, va / PGSIZE))
        && r.value.0 != 0 && r.value.0 in own && own[r.value.0].Low?
    {
      hide Tables, Grown, Chain, Lists;
      ghost var mem0, own0 := mem, own;
      GrownReflexive(mem, own);
      var page := va / PGSIZE;
      var pagetable, level := root, 2;
      PagesPositive(mem, own, root);
      while level > 0
        invariant 0 <= level <= 2 && Valid() && Grown(mem0, own0, mem, own)
        invariant !alloc ==> mem == mem0 && own == own0 && free == old(free)
        invariant IsRoot(own, root) && pagetable in own && pagetable != 0 && |free| + 2 - level >= |old(free)|
        invariant level == 2 ==> pagetable == root
        invariant level == 1 ==> own[pagetable].Mid? && pagetable == MidPage(mem, root, page)
        invariant level == 0 ==> own[pagetable].Low? && pagetable == LowPage(mem, root, page)
      {
        ghost var mem1, own1 := mem, own;
        PxTop(page);
        var c := WalkStep(pagetable, Px(level, page), alloc);
        GrownTransitive(mem0, own0, mem1, own1, mem, own);
        if c == 0 {
          PathOwner(mem, own, root, page);
          ZeroIsNoPage(mem, own);
          return None;
        }
        OwnerKept(mem1, own1, mem, own, root);
        OwnerKept(mem1, own1, mem, own, pagetable);
        assert Entry(mem, root, Px(2, page)) == Entry(mem1, root, Px(2, page)) || level == 2;
        pagetable := c;
        level := level - 1;
      }
      return Some((pagetable, Px(0, page)));
    }

    /** One turn of mappages' loop. */
    method MapOne(root: nat, a: nat, pa: nat, perm: nat) returns (res: MapResult)
      requires Valid() && IsRoot(own, root) && a < MAXVA && pa % PGSIZE == 0 && perm < 1024
      requires SpecialPage(a / PGSIZE) || (pa in own && own[pa].Other?)
      modifies this
      ensures Valid()
      ensures res != Mapped ==> Grown(old(mem), old(own), mem, own)
      ensures res == NoMemory ==> free == [] && |old(free)| < 2
      ensures |free| + 2 >= |old(free)|
      ensures res == Remap <==> Xlate(old(mem), root, a / PGSIZE).Some?
      ensures res == Mapped ==>
        && MapsRange(old(mem), mem, old(own), root, a / PGSIZE, 1, pa, perm)
        && OwnersAfterMap(old(own), own, pa, 1) && SameData(old(mem), old(own), mem)
    {
      hide Tables, Grown, Chain, Lists, MapsRange, OwnersAfterMap, SameData;
      ghost var page, mem0, own0 := a / PGSIZE, mem, own;
      var r := Walk(root, a, true);
      XlateKept(mem0, own0, mem, own, root, page);
      OwnerKept(mem0, own0, mem, own, root);
      ZeroIsNoPage(mem, own);
      if r.None? {
        return NoMemory;
      }
      var (l, i) := r.value;
      PagesPositive(mem, own, l);
      if V(mem[l][i]) {
        return Remap;
      }
      MapOneEffect(mem0, own0, mem, own, root, page, pa, perm);
      ChainSetEntry(mem, own, freelist, free, l, i, MakePte(pa, perm));
      ListsSameFree(own, OwnMapped(own, l, i, pa), free);
      mem := SetEntry(mem, l, i, MakePte(pa, perm));
      own := OwnMapped(own, l, i, pa);
      res := Mapped;
    }

    /**
     mappages: maps the range page by page.  `done` pages are mapped when it
     returns, all of them unless memory ran out or a page was mapped already.
     */
    method Mappages(root: nat, va: nat, size: nat, pa: nat, perm: nat) returns (res: MapResult, ghost done: nat)
      requires Valid() && IsRoot(own, root)
      requires va % PGSIZE == 0 && size % PGSIZE == 0 && size > 0 && va + size <= MAXVA
      requires pa % PGSIZE == 0 && perm < 1024 && MayMap(own, va / PGSIZE, size / PGSIZE, pa)
      modifies this
      ensures Valid() && done <= size / PGSIZE
      ensures MapsTo(old(mem), old(own), mem, own, root, va / PGSIZE, done, pa, perm)
      ensures res == Mapped <==> done == size / PGSIZE
      ensures res == NoMemory ==> free == [] && |old(free)| < 2 * (size / PGSIZE)
      ensures |free| + 2 * (size / PGSIZE) >= |old(free)|
      ensures res == Remap ==> Xlate(old(mem), root, va / PGSIZE + done).Some?
    {
      hide Tables, Grown, Chain, Lists, MapsTo, MayMap, MapsRange, OwnersAfterMap, SameData, Xlate, SpecialPage;
      ghost var mem0, own0, page0, n := mem, own, va / PGSIZE, size / PGSIZE;
      MapsToNone(mem, own, root, page0, pa, perm);
      var a, last, p := va, va + size - PGSIZE, pa;
      done := 0;
      while true
        invariant Valid() && done < n && a == va + done * PGSIZE && p == pa + done * PGSIZE
        invariant |free| + 2 * done >= |old(free)|
        invariant MapsTo(mem0, own0, mem, own, root, page0, done, pa, perm)
        decreases n - done
      {
        ghost var mem1, own1 := mem, own;
        PageOfStep(va, done, size);
        PageOfStep(pa, done, size);
        MapsToReady(mem0, own0, mem, own, root, page0, done, n, pa, perm);
        res := MapOne(root, a, p, perm);
        if res != Mapped {
          MapsToGrown(mem0, own0, mem1, own1, mem, own, root, page0, done, pa, perm);
          return;
        }
        MapsToNext(mem0, own0, mem1, own1, mem, own, root, page0, done, pa, perm);
        done := done + 1;
        if a == last {
          break;
        }
        a := a + PGSIZE;
        p := p + PGSIZE;
      }
    }

    /** One turn of uvmunmap's loop. */
    method UnmapOne(root: nat, a: nat, doFree: bool)
      requires Valid() && IsRoot(own, root) && a < MAXVA && (doFree ==> !SpecialPage(a / PGSIZE))
      modifies this
      ensures Valid()
      ensures Unmaps(old(mem), old(own), mem, own, root, a / PGSIZE, 1, if doFree then Free else Other)
    {
      hide Tables, Grown, Chain, Lists, Unmaps, Special, SpecialPage;
      ghost var page := a / PGSIZE;
      var r := Walk(root, a, false);
      if r.None? {
        ZeroIsNoPage(mem, own);
        UnmapsAbsent(mem, own, root, page, if doFree then Free else Other);
        return;
      }
      var (l, i) := r.value;
      PagesPositive(mem, own, l);
      var pte := mem[l][i];
      if !V(pte) {
        UnmapsAbsent(mem, own, root, page, if doFree then Free else Other);
        return;
      }
      EntryFacts(mem, own, root, page);
      if doFree {
        ClearFreed(mem, own, root, page, Filled(JUNK_FREED)[0 := freelist]);
        Kfree(Pa(pte));
        ChainSetEntry(mem, own, freelist, free, l, i, 0);
      } else {
        ClearKept(mem, own, root, page);
        ChainSetEntry(mem, own, freelist, free, l, i, 0);
        UnmappedNotFree(own, l, i, Pa(pte));
        ListsSameFree(own, OwnUnmapped(own, l, i, Pa(pte), Other), free);
        own := OwnUnmapped(own, l, i, Pa(pte), Other);
      }
      mem := SetEntry(mem, l, i, 0);
    }

    /** uvmunmap: the range's mappings go, and with doFree the pages they mapped are freed. */
    method Uvmunmap(root: nat, va: nat, npages: nat, doFree: bool)
      requires Valid() && IsRoot(own, root) && va % PGSIZE == 0 && va + npages * PGSIZE <= MAXVA
      requires doFree ==> va / PGSIZE + npages <= PAGES - 2
      modifies this
      ensures Valid()
      ensures Unmaps(old(mem), old(own), mem, own, root, va / PGSIZE, npages, if doFree then Free else Other)
    {
      hide Tables, Chain, Lists, Unmaps;
      ghost var mem0, own0, page0, o := mem, own, va / PGSIZE, if doFree then Free else Other;
      UnmapsNone(mem, own, root, page0, o);
      var a := va;
      ghost var k := 0;
      while a < va + npages * PGSIZE
        invariant 0 <= k <= npages && a == va + k * PGSIZE && Valid() && IsRoot(own, root)
        invariant Unmaps(mem0, own0, mem, own, root, page0, k, o)
        decreases npages - k
      {
        ghost var mem1, own1 := mem, own;
        assert k < npages;
        PageOfStep(va, k, npages * PGSIZE);
        UnmapOne(root, a, doFree);
        UnmapsNext(mem0, own0, mem1, own1, mem, own, root, page0, k, o);
        UnmapsKeepsRoot(mem1, own1, mem, own, root, page0 + k, 1, o, root);
        a := a + PGSIZE;
        k := k + 1;
      }
    }
  }
}
