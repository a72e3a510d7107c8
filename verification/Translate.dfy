/**
 What the hardware makes of a page table: the translation algorithm of section
 4.3.2 of the RISC-V Privileged Architecture with Sv39's three levels and
 eight-byte entries, on raw addresses.
 */
module Translate {
  import opened Wrappers
  import opened Sv39
  import opened PageTable

  /** The nine bits of a virtual address that index the table of level i: bits 12, 21 or 30 and up. */
  function Vpn(va: nat, i: nat): nat
    requires i < 3
  {
    [va / 0x1000, va / 0x20_0000, va / 0x4000_0000][i] % 512
  }

  /** V, R, W and X. */
  predicate Bit(pte: nat, k: nat)
    requires k < 4
  {
    pte / [1, 2, 4, 8][k] % 2 == 1
  }

  /** The eight bytes at an address. */
  function Load(mem: Mem, addr: nat): nat {
    var page, i := addr / 4096 * 4096, addr % 4096 / 8;
    if page in mem && i < |mem[page]| then mem[page][i] else 0
  }

  /** The physical address of va under the table at a, level i; None is a page fault. */
  function HwTranslate(mem: Mem, a: nat, va: nat, i: nat): Option<nat>
    requires i < 3
    decreases i
  {
    var pte := Load(mem, a + Vpn(va, i) * 8);
    if !Bit(pte, 0) || (!Bit(pte, 1) && Bit(pte, 2)) then None
    else if Bit(pte, 1) || Bit(pte, 3) then
      if pte / 1024 % [1, 512, 0x4_0000][i] != 0 then None
      else Some(pte / 1024 * 4096 + va % [0x1000, 0x20_0000, 0x4000_0000][i])
    else if i == 0 then None
    else HwTranslate(mem, pte / 1024 * 4096, va, i - 1)
  }

  lemma PxIsVpn(va: nat, i: nat)
    requires i < 3
    ensures Px(i, va / 4096) == Vpn(va, i)
  {
    assert va / 4096 / 512 == va / 0x20_0000;
    assert va / 4096 / 262144 == va / 0x4000_0000;
  }

  lemma LoadIsEntry(mem: Mem, a: nat, k: nat)
    requires a % 4096 == 0 && k < 512
    ensures Load(mem, a + k * 8) == Entry(mem, a, k)
  {
    var q := a / 4096;
    assert a == q * 4096 && (q * 4096 + k * 8) / 4096 == q && (q * 4096 + k * 8) % 4096 == k * 8;
  }

  /** The bits of an entry, as the kernel's macros see them. */
  lemma Bits(pte: nat)
    ensures V(pte) <==> Bit(pte, 0)
    ensures Pointer(pte) <==> !Bit(pte, 1) && !Bit(pte, 2) && !Bit(pte, 3)
    ensures forall k :: 0 <= k < 4 ==> Bit(pte, k) == Bit(Flags(pte), k)
  {
    LowBits(pte / 1024, pte % 1024);
    assert pte == pte / 1024 * 1024 + pte % 1024;
    ThreeBits(pte / 2);
    assert pte / 2 / 2 == pte / 4 && pte / 2 / 4 == pte / 8;
  }

  lemma LowBits(q: nat, f: nat)
    ensures (q * 1024 + f) % 2 == f % 2
    ensures (q * 1024 + f) / 2 % 2 == f / 2 % 2
    ensures (q * 1024 + f) / 4 % 2 == f / 4 % 2
    ensures (q * 1024 + f) / 8 % 2 == f / 8 % 2
  {
    assert (q * 1024 + f) / 2 == q * 512 + f / 2;
    assert (q * 1024 + f) / 4 == q * 256 + f / 4;
    assert (q * 1024 + f) / 8 == q * 128 + f / 8;
  }

  lemma ThreeBits(x: nat)
    ensures x % 8 == 0 <==> x % 2 == 0 && x / 2 % 2 == 0 && x / 4 % 2 == 0
  {
    var y, r := x / 8, x % 8;
    assert x == 8 * y + r;
    assert x % 2 == r % 2 by { assert x == 2 * (4 * y) + r; }
    assert x / 2 == 4 * y + r / 2 && x / 4 == 2 * y + r / 4;
    assert r == 0 || r == 1 || r == 2 || r == 3 || r == 4 || r == 5 || r == 6 || r == 7;
  }

  /** R or X, and not W without R: the page can be accessed in some way. */
  predicate Accessible(flags: nat) { (Bit(flags, 1) || Bit(flags, 3)) && (Bit(flags, 2) ==> Bit(flags, 1)) }

  /** One level down, or the fault. */
  lemma HwDown(mem: Mem, own: Owners, p: nat, va: nat, i: nat)
    requires Tables(mem, own) && p in own && 0 < i < 3 && (own[p].Root? || own[p].Mid?)
    ensures var c := Child(mem, p, Px(i, va / 4096));
      HwTranslate(mem, p, va, i) == if V(Entry(mem, p, Px(i, va / 4096))) then HwTranslate(mem, c, va, i - 1) else None
  {
    hide Tables, Pointer, V, Load, Vpn, Px, Entry, Bit;
    PagesPositive(mem, own, p);
    PxIsVpn(va, i);
    VpnSmall(va, i);
    LoadIsEntry(mem, p, Vpn(va, i));
    Bits(Entry(mem, p, Vpn(va, i)));
    PointsDown(mem, own, p, Vpn(va, i));
  }

  lemma VpnSmall(va: nat, i: nat)
    requires i < 3
    ensures Vpn(va, i) < 512
  {
  }

  lemma PointsDown(mem: Mem, own: Owners, p: nat, k: nat)
    requires Tables(mem, own) && p in own && k < 512 && (own[p].Root? || own[p].Mid?)
    ensures V(Entry(mem, p, k)) ==> Pointer(Entry(mem, p, k))
  {
    assert DownOk(mem, own, p, k);
  }

  lemma HwLeaf(mem: Mem, p: nat, va: nat)
    requires p % 4096 == 0
    ensures var pte := Entry(mem, p, Px(0, va / 4096));
      HwTranslate(mem, p, va, 0) == if V(pte) && Accessible(Flags(pte)) then Some(Pa(pte) + va % 4096) else None
  {
    PxIsVpn(va, 0);
    LoadIsEntry(mem, p, Vpn(va, 0));
    Bits(Entry(mem, p, Vpn(va, 0)));
    hide Pointer, V, Load, Vpn, Flags;
  }

  /** The hardware translates an address below MAXVA exactly as the flat page map says. */
  lemma HardwareAgrees(mem: Mem, own: Owners, r: nat, va: nat)
    requires Tables(mem, own) && IsRoot(own, r) && va < MAXVA
    ensures var x := Xlate(mem, r, va / 4096);
      HwTranslate(mem, r, va, 2) ==
      if x.Some? && Accessible(x.value.1) then Some(x.value.0 + va % 4096) else None
  {
    hide Tables, HwTranslate, Accessible, V, Px;
    var page := va / 4096;
    HwDown(mem, own, r, va, 2);
    var m := MidPage(mem, r, page);
    if V(Entry(mem, r, Px(2, page))) {
      ChildOwner(mem, own, r, Px(2, page));
      HwDown(mem, own, m, va, 1);
      if V(Entry(mem, m, Px(1, page))) {
        ChildOwner(mem, own, m, Px(1, page));
        PagesPositive(mem, own, LowPage(mem, r, page));
        HwLeaf(mem, LowPage(mem, r, page), va);
      } else {
        NoPageZero(mem, own);
      }
    } else {
      NoPageZero(mem, own);
    }
  }

  /** There is nothing at page 0, which a missing table is taken for. */
  lemma NoPageZero(mem: Mem, own: Owners)
    requires Tables(mem, own)
    ensures forall i: nat :: !V(Entry(mem, 0, i)) && Child(mem, 0, i) == 0
  {
  }
}
