/** The free-block bitmap of fs.c, a byte for every eight blocks. */
module Bitmap {
  /** 1 << k */
  function Mask(k: nat): bv8
    requires k < 8
  {
    if k == 0 then 1 else if k == 1 then 2 else if k == 2 then 4 else if k == 3 then 8
    else if k == 4 then 16 else if k == 5 then 32 else if k == 6 then 64 else 128
  }

  predicate Bit(x: bv8, k: nat)
    requires k < 8
  {
    x & Mask(k) != 0
  }

  lemma SetBit(x: bv8, k: nat, j: nat)
    requires k < 8 && j < 8
    ensures Bit(x | Mask(k), j) <==> j == k || Bit(x, j)
  {
  }

  lemma ClearBit(x: bv8, k: nat, j: nat)
    requires k < 8 && j < 8
    ensures Bit(x & !Mask(k), j) <==> j != k && Bit(x, j)
  {
  }

  /** Whether block b is marked in use. */
  predicate Used(bitmap: seq<bv8>, b: nat) {
    b / 8 < |bitmap| && Bit(bitmap[b / 8], b % 8)
  }

  function Mark(bitmap: seq<bv8>, b: nat): (r: seq<bv8>)
    requires b / 8 < |bitmap|
  {
    bitmap[b / 8 := bitmap[b / 8] | Mask(b % 8)]
  }

  function Unmark(bitmap: seq<bv8>, b: nat): (r: seq<bv8>)
    requires b / 8 < |bitmap|
  {
    bitmap[b / 8 := bitmap[b / 8] & !Mask(b % 8)]
  }

  /** Marking changes the answer for that block only. */
  lemma MarkUsed(bitmap: seq<bv8>, b: nat)
    requires b / 8 < |bitmap|
    ensures |Mark(bitmap, b)| == |bitmap|
    ensures forall c: nat :: Used(Mark(bitmap, b), c) <==> c == b || Used(bitmap, c)
  {
    forall c: nat ensures Used(Mark(bitmap, b), c) <==> c == b || Used(bitmap, c) {
      if c / 8 == b / 8 { SetBit(bitmap[b / 8], b % 8, c % 8); }
    }
  }

  lemma UnmarkUsed(bitmap: seq<bv8>, b: nat)
    requires b / 8 < |bitmap|
    ensures |Unmark(bitmap, b)| == |bitmap|
    ensures forall c: nat :: Used(Unmark(bitmap, b), c) <==> c != b && Used(bitmap, c)
  {
    forall c: nat ensures Used(Unmark(bitmap, b), c) <==> c != b && Used(bitmap, c) {
      if c / 8 == b / 8 { ClearBit(bitmap[b / 8], b % 8, c % 8); }
    }
  }

  /** Block b's bit is bit b % 8, counted from the least significant, of byte b / 8. */
  lemma BitOfBlock(bitmap: seq<bv8>, b: nat)
    requires b / 8 < |bitmap|
    ensures Used(bitmap, b) <==> (bitmap[b / 8] >> (b % 8)) & 1 == 1
  {
  }
}
