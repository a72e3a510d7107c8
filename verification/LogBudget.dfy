/** Counting what a writei logs, round by round. */
module LogBudget {
  import opened Params
  import opened Inodes
  import opened FileBytes

  /**
   rounds: rounds of writei's loop so far.  made: bmap had to make an indirect
   block.  d, b, c: data, bitmap and indirect blocks logged.
   */
  datatype Account = Account(rounds: nat, made: bool, d: set<nat>, b: set<nat>, c: set<nat>)

  predicate Unaligned(off: nat) { off % BSIZE != 0 }

  ghost predicate Counted(s: Account, base: set<nat>, logged: set<nat>, off: nat, n: nat) {
    && logged <= base + s.d + s.b + s.c && |s.d| <= s.rounds && |s.c| <= 1 && s.rounds <= Touched(off, n)
    && |s.b| <= s.rounds + (if s.made then 1 else 0) - (if Unaligned(off) && s.rounds > 0 then 1 else 0)
  }

  /** Another round may follow; ind is the inode's indirect block. */
  ghost predicate Within(s: Account, base: set<nat>, logged: set<nat>, off: nat, tot: nat, n: nat, ind: nat) {
    && Counted(s, base, logged, off, n)
    && (s.made ==> ind != 0) && (s.c == {} || (s.c == {ind} && ind != 0))
    && (tot < n && s.rounds > 0 ==> off % BSIZE + tot == s.rounds * BSIZE)
    && (s.rounds == 0 ==> tot == 0)
  }

  /** What the bmap of a round at pos may log; got says whether it found or made a block. */
  ghost predicate MapLogs(l0: set<nat>, l1: set<nat>, pos: nat, ind0: nat, ind1: nat, old0: nat, got: bool,
                          d: set<nat>, b: set<nat>, c: set<nat>)
  {
    && l1 <= l0 + d + b + c && |d| <= 1 && |c| <= 1
    && |b| <= (if old0 == 0 then 1 else 0) + (if pos / BSIZE < NDIRECT || ind0 != 0 then 0 else 1)
    && (pos / BSIZE < NDIRECT ==> c == {} && ind1 == ind0) && c <= {ind1}
    && (pos / BSIZE >= NDIRECT && got ==> ind1 != 0) && (ind0 != 0 ==> ind1 == ind0)
  }

  /** What a round that writes k of the left bytes at pos may log. */
  ghost predicate RoundLogs(l0: set<nat>, l1: set<nat>, pos: nat, left: nat, ind0: nat, ind1: nat, old0: nat,
                            k: nat, d: set<nat>, b: set<nat>, c: set<nat>)
  {
    MapLogs(l0, l1, pos, ind0, ind1, old0, k > 0, d, b, c) && (k == 0 || k == Min(left, BSIZE - pos % BSIZE))
  }

  lemma LogAgain(l0: set<nat>, l1: set<nat>, pos: nat, ind0: nat, ind1: nat, old0: nat, got: bool,
                 addr: nat, b: set<nat>, c: set<nat>)
    requires MapLogs(l0, l1, pos, ind0, ind1, old0, got, {addr}, b, c)
    ensures MapLogs(l0, l1 + {addr}, pos, ind0, ind1, old0, got, {addr}, b, c)
  {
  }

  ghost function After(s: Account, pos: nat, ind0: nat, d: set<nat>, b: set<nat>, c: set<nat>): Account {
    Account(s.rounds + 1, s.made || (pos / BSIZE >= NDIRECT && ind0 == 0), s.d + d, s.b + b, s.c + c)
  }

  lemma RoundsLeft(off: nat, tot: nat, n: nat, rounds: nat)
    requires tot < n && (rounds > 0 ==> off % BSIZE + tot == rounds * BSIZE) && (rounds == 0 ==> tot == 0)
    ensures rounds + 1 <= Touched(off, n)
    ensures var k := Min(n - tot, BSIZE - (off + tot) % BSIZE);
      tot + k < n ==> off % BSIZE + tot + k == (rounds + 1) * BSIZE
  {
    assert (off + tot) % BSIZE == if rounds == 0 then off % BSIZE else 0 by {
      if rounds > 0 { assert off + tot == (off / BSIZE + rounds) * BSIZE; }
    }
    assert rounds * BSIZE + BSIZE <= off % BSIZE + n + BSIZE - 1;
  }

  lemma RoundCounted(s: Account, base: set<nat>, l0: set<nat>, l1: set<nat>, off: nat, tot: nat, n: nat,
                     ind0: nat, ind1: nat, old0: nat, k: nat, d: set<nat>, b: set<nat>, c: set<nat>)
    requires Within(s, base, l0, off, tot, n, ind0) && tot < n
    requires RoundLogs(l0, l1, off + tot, n - tot, ind0, ind1, old0, k, d, b, c)
    requires Unaligned(off) && tot == 0 ==> old0 != 0
    ensures Counted(After(s, off + tot, ind0, d, b, c), base, l1, off, n)
  {
    hide Touched, Unaligned;
    RoundsLeft(off, tot, n, s.rounds);
    UnionBound(s.d, d);
    BitmapBound(s, b, off, tot, ind0, old0);
    OneIndirect(s.c, c, ind0, ind1);
    Together(base, l0, l1, s, d, b, c);
  }

  lemma BitmapBound(s: Account, b: set<nat>, off: nat, tot: nat, ind0: nat, old0: nat)
    requires |s.b| <= s.rounds + (if s.made then 1 else 0) - (if Unaligned(off) && s.rounds > 0 then 1 else 0)
    requires (s.made ==> ind0 != 0) && (s.rounds == 0 ==> tot == 0) && (Unaligned(off) && tot == 0 ==> old0 != 0)
    requires |b| <= (if old0 == 0 then 1 else 0) + (if (off + tot) / BSIZE < NDIRECT || ind0 != 0 then 0 else 1)
    ensures var made := s.made || ((off + tot) / BSIZE >= NDIRECT && ind0 == 0);
      |s.b + b| <= s.rounds + 1 + (if made then 1 else 0) - (if Unaligned(off) then 1 else 0)
  {
    hide Unaligned;
    UnionBound(s.b, b);
  }

  lemma OneIndirect(c0: set<nat>, c: set<nat>, ind0: nat, ind1: nat)
    requires (c0 == {} || (c0 == {ind0} && ind0 != 0)) && c <= {ind1} && |c| <= 1 && (ind0 != 0 ==> ind1 == ind0)
    ensures |c0 + c| <= 1
  {
    if c0 == {} { assert c0 + c == c; } else { assert c0 + c == c0; }
  }

  lemma IndirectSet(c0: set<nat>, c: set<nat>, ind0: nat, ind1: nat)
    requires (c0 == {} || (c0 == {ind0} && ind0 != 0)) && c <= {ind1} && (ind0 != 0 ==> ind1 == ind0)
    ensures c0 + c == {} || c0 + c == {ind1}
  {
    if c0 + c != {} { assert c0 + c == {ind1}; }
  }

  lemma Together(base: set<nat>, l0: set<nat>, l1: set<nat>, s: Account, d: set<nat>, b: set<nat>, c: set<nat>)
    requires l0 <= base + s.d + s.b + s.c && l1 <= l0 + d + b + c
    ensures l1 <= base + (s.d + d) + (s.b + b) + (s.c + c)
  {
  }

  /** A round keeps the account, and if it wrote something the loop may go on. */
  lemma RoundKeeps(s: Account, base: set<nat>, l0: set<nat>, l1: set<nat>, off: nat, tot: nat, n: nat,
                   ind0: nat, ind1: nat, old0: nat, k: nat, d: set<nat>, b: set<nat>, c: set<nat>)
    requires Within(s, base, l0, off, tot, n, ind0) && tot < n
    requires RoundLogs(l0, l1, off + tot, n - tot, ind0, ind1, old0, k, d, b, c)
    requires Unaligned(off) && tot == 0 ==> old0 != 0
    ensures Counted(After(s, off + tot, ind0, d, b, c), base, l1, off, n)
    ensures k > 0 ==> Within(After(s, off + tot, ind0, d, b, c), base, l1, off, tot + k, n, ind1)
  {
    hide Counted, Touched, Unaligned;
    RoundCounted(s, base, l0, l1, off, tot, n, ind0, ind1, old0, k, d, b, c);
    RoundsLeft(off, tot, n, s.rounds);
    IndirectSet(s.c, c, ind0, ind1);
  }

  /** The account bounds the log and leaves a place for the inode's block. */
  lemma Total(s: Account, base: set<nat>, logged: set<nat>, off: nat, n: nat)
    requires Counted(s, base, logged, off, n)
    ensures |logged| < |base| + LogCost(off, n)
  {
    SubsetBound(logged, base + s.d + s.b + s.c);
    UnionBound(base, s.d);
    UnionBound(base + s.d, s.b);
    UnionBound(base + s.d + s.b, s.c);
  }
}
