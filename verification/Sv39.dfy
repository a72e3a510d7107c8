/**
 Page-table entries and virtual page numbers (riscv.h), after the Sv39 format
 of section 4.4 of the RISC-V Privileged Architecture.  Bit operations are
 written as division and remainder by powers of two.
 */
module Sv39 {
  const PGSIZE := 4096
  const ENTRIES := 512
  const MAXVA := 0x40_0000_0000       // 1 << 38
  const PAGES := MAXVA / PGSIZE       // virtual pages below MAXVA

  const PTE_V := 1
  const PTE_R := 2
  const PTE_W := 4
  const PTE_X := 8
  const PTE_U := 16

  predicate V(pte: nat) { pte % 2 == 1 }

  /** None of R, W, X: the entry points to a lower table. */
  predicate Pointer(pte: nat) { (pte / 2) % 8 == 0 }

  predicate U(pte: nat) { (pte / 16) % 2 == 1 }

  function Pa(pte: nat): nat { pte / 1024 * PGSIZE }

  function Flags(pte: nat): nat { pte % 1024 }

  /** PA2PTE(pa) | perm | PTE_V. */
  function MakePte(pa: nat, perm: nat): nat {
    pa / PGSIZE * 1024 + (if perm % 2 == 1 then perm else perm + 1)
  }

  lemma MakePteRoundTrip(pa: nat, perm: nat)
    requires pa % PGSIZE == 0 && perm < 1024
    ensures V(MakePte(pa, perm)) && Pa(MakePte(pa, perm)) == pa
    ensures Flags(MakePte(pa, perm)) == if perm % 2 == 1 then perm else perm + 1
    ensures perm == 0 ==> Pointer(MakePte(pa, perm))
  {
    var k, f, pte := pa / PGSIZE, if perm % 2 == 1 then perm else perm + 1, MakePte(pa, perm);
    assert pte == k * 1024 + f && f < 1024;
    assert pte / 1024 == k && pte % 1024 == f;
    assert pte % 2 == f % 2;
    assert perm == 0 ==> pte / 2 == k * 512;
  }

  function Px(level: nat, page: nat): (i: nat)
    requires level <= 2
    ensures i < ENTRIES
  {
    (if level == 0 then page else if level == 1 then page / 512 else page / 262144) % ENTRIES
  }

  lemma PxTop(page: nat)
    requires page < PAGES
    ensures Px(2, page) < 256
  {
    assert page / 262144 < 256;
  }

  /** The page with the given indices. */
  lemma PxInverse(i2: nat, i1: nat, i0: nat)
    requires i2 < 256 && i1 < ENTRIES && i0 < ENTRIES
    ensures var page := i2 * 262144 + i1 * 512 + i0;
      page < PAGES && Px(2, page) == i2 && Px(1, page) == i1 && Px(0, page) == i0
  {
    var page := i2 * 262144 + i1 * 512 + i0;
    assert page / 512 == i2 * 512 + i1;
    assert page / 262144 == i2;
  }

  /** The three indices identify a page below MAXVA. */
  lemma PxInjective(p: nat, q: nat)
    requires p < PAGES && q < PAGES
    requires Px(0, p) == Px(0, q) && Px(1, p) == Px(1, q) && Px(2, p) == Px(2, q)
    ensures p == q
  {
    assert p / 512 / 512 == p / 262144 && q / 512 / 512 == q / 262144;
    assert p / 262144 < 512 && q / 262144 < 512;
    assert p / 262144 == q / 262144;
    assert p / 512 == q / 512;
  }

  function RoundUp(sz: nat): nat { (sz + PGSIZE - 1) / PGSIZE * PGSIZE }
}
