/**
 The redo log (log.c) over the buffer cache.  `lh` is the in-memory header:
 the numbers of the blocks logged since the last commit.
 */
module LogLayer {
  import opened Wrappers
  import opened Params
  import opened Blocks
  import opened Ring
  import opened Bio
  import opened Redo

  const KERNEL := 1  // pid that runs commit and recovery

  /** No one holds or locks a buffer. */
  ghost predicate Quiet(bufs: seq<Buf>, refs: seq<nat>) {
    |refs| == |bufs| && forall i :: 0 <= i < |bufs| ==> bufs[i].holder == 0 && refs[i] == 0
  }

  predicate InLog(start: nat, n: nat) {
    start <= n <= start + LOGBLOCKS
  }

  /** No one has locked the block. */
  ghost predicate Unlocked(bufs: seq<Buf>, n: nat) {
    forall i :: 0 <= i < |bufs| && Tagged(bufs[i], n) ==> bufs[i].holder == 0
  }

  /**
   What commit finds free: the log area is held by no one, and the locks of the
   logged blocks are not taken.  Any process may hold any other buffer, locked
   or not, and references to the logged blocks.
   */
  ghost predicate Clear(bufs: seq<Buf>, refs: seq<nat>, start: nat, lh: seq<nat>) {
    && |refs| == |bufs|
    && (forall i :: 0 <= i < |bufs| && bufs[i].dev == ROOTDEV && InLog(start, bufs[i].blockno) ==>
          refs[i] == 0 && bufs[i].holder == 0)
    && (forall i :: 0 <= i < |bufs| && bufs[i].dev == ROOTDEV && bufs[i].blockno in lh ==> bufs[i].holder == 0)
  }

  /** Every block that is not listed has its latest contents on disk. */
  ghost predicate Settled(disk: Disk, latest: Disk, blocks: seq<nat>) {
    |disk| == |latest| && forall n :: 0 <= n < |disk| && n !in blocks ==> disk[n] == latest[n]
  }

  /** Whoever holds a buffer still holds it, with the same block, lock and contents in place. */
  ghost predicate OthersKept(bufs: seq<Buf>, refs: seq<nat>, bufs': seq<Buf>, refs': seq<nat>) {
    && refs' == refs && |bufs'| == |bufs| == |refs|
    && forall i :: 0 <= i < |bufs| && refs[i] > 0 ==>
      && bufs'[i].dev == bufs[i].dev && bufs'[i].blockno == bufs[i].blockno && bufs'[i].holder == bufs[i].holder
      && (bufs[i].valid ==> bufs'[i].valid)
  }

  lemma OthersKeptTrans(a: seq<Buf>, r: seq<nat>, b: seq<Buf>, s: seq<nat>, c: seq<Buf>, t: seq<nat>)
    requires OthersKept(a, r, b, s) && OthersKept(b, s, c, t)
    ensures OthersKept(a, r, c, t)
  {
  }

  lemma OthersKeptSame(bufs: seq<Buf>, refs: seq<nat>)
    requires |bufs| == |refs|
    ensures OthersKept(bufs, refs, bufs, refs)
  {
  }

  /** Buffer i shows block n and is unlocked; whoever holds it already held block n in it. */
  ghost predicate Back(bufs: seq<Buf>, refs: seq<nat>, bufs': seq<Buf>, i: nat, n: nat) {
    && |bufs'| == |bufs| == |refs| && i < |bufs|
    && Tagged(bufs'[i], n) && bufs'[i].valid && bufs'[i].holder == 0
    && (refs[i] > 0 ==> Tagged(bufs[i], n) && bufs[i].holder == 0)
  }

  /** A turn of the log's loops uses buffer l for a log block and h for a home block. */
  lemma TurnKeepsOthers(bufs: seq<Buf>, refs: seq<nat>, bufs': seq<Buf>, l: nat, slot: nat, h: nat, home: nat,
                        start: nat, lh: seq<nat>)
    requires Clear(bufs, refs, start, lh) && Back(bufs, refs, bufs', l, slot) && Back(bufs, refs, bufs', h, home)
    requires refs[l] == 0 && (InLog(start, home) ==> h == l)
    requires forall i :: 0 <= i < |bufs| && i != l && i != h ==> bufs'[i] == bufs[i]
    ensures Clear(bufs', refs, start, lh) && OthersKept(bufs, refs, bufs', refs)
  {
  }

  ghost predicate Showing(bufs: seq<Buf>, b: nat) {
    exists i :: 0 <= i < |bufs| && Tagged(bufs[i], b) && bufs[i].valid
  }

  /** Exactly the blocks listed are pinned, once each, in valid buffers. */
  ghost predicate PinnedFor(bufs: seq<Buf>, pins: seq<nat>, blocks: seq<nat>) {
    && |pins| == |bufs|
    && (forall i :: 0 <= i < |bufs| ==>
          pins[i] == if bufs[i].dev == ROOTDEV && bufs[i].blockno in blocks then 1 else 0)
    && (forall k :: 0 <= k < |blocks| ==> Showing(bufs, blocks[k]))
  }

  /** bget could recycle some buffer. */
  ghost predicate Free(bufs: seq<Buf>) {
    exists i :: 0 <= i < |bufs| && bufs[i].refcnt == 0
  }

  lemma RetagUnpinned(bufs: seq<Buf>, pins: seq<nat>, blocks: seq<nat>, i: nat, b: Buf)
    requires PinnedFor(bufs, pins, blocks) && i < |bufs| && pins[i] == 0 && b.blockno !in blocks
    ensures PinnedFor(bufs[i := b], pins, blocks)
  {
    forall k | 0 <= k < |blocks| ensures Showing(bufs[i := b], blocks[k]) {
      var j :| 0 <= j < |bufs| && Tagged(bufs[j], blocks[k]) && bufs[j].valid;
      assert j != i;
      assert Tagged(bufs[i := b][j], blocks[k]);
    }
  }

  lemma RefreshTagged(bufs: seq<Buf>, pins: seq<nat>, blocks: seq<nat>, i: nat, b: Buf)
    requires PinnedFor(bufs, pins, blocks) && i < |bufs| && bufs[i].dev == b.dev
    requires b.blockno == bufs[i].blockno && (bufs[i].valid ==> b.valid)
    ensures PinnedFor(bufs[i := b], pins, blocks)
  {
    forall k | 0 <= k < |blocks| ensures Showing(bufs[i := b], blocks[k]) {
      var j :| 0 <= j < |bufs| && Tagged(bufs[j], blocks[k]) && bufs[j].valid;
      assert Tagged(bufs[i := b][j], blocks[k]);
    }
  }

  lemma LoggedIsPinned(bufs: seq<Buf>, pins: seq<nat>, blocks: seq<nat>, b: nat)
    requires PinnedFor(bufs, pins, blocks) && b in blocks
    ensures Cached(bufs, b)
    ensures forall i :: 0 <= i < |bufs| && Tagged(bufs[i], b) ==> pins[i] == 1
  {
    var k :| 0 <= k < |blocks| && blocks[k] == b;
    assert Showing(bufs, blocks[k]);
  }

  lemma UnloggedIsUnpinned(bufs: seq<Buf>, pins: seq<nat>, blocks: seq<nat>, b: nat)
    requires PinnedFor(bufs, pins, blocks) && b !in blocks
    ensures forall i :: 0 <= i < |bufs| && Tagged(bufs[i], b) ==> pins[i] == 0
  {
  }

  lemma CoherentIsUnique(bufs: seq<Buf>, refs: seq<nat>, pins: seq<nat>, disk: Disk, latest: Disk)
    requires Coherent(bufs, refs, pins, disk, latest)
    ensures Unique(bufs)
  {
  }

  /** A block that no one has locked or logged is on disk. */
  lemma UnlockedIsOnDisk(bufs: seq<Buf>, refs: seq<nat>, pins: seq<nat>, disk: Disk, latest: Disk,
                         blocks: seq<nat>, n: nat)
    requires Coherent(bufs, refs, pins, disk, latest) && Unlocked(bufs, n)
    requires PinnedFor(bufs, pins, blocks) && n < |disk| && n !in blocks
    ensures disk[n] == latest[n]
  {
  }

  /** With nothing held, only logged blocks can differ from the disk. */
  lemma QuietIsSettled(bufs: seq<Buf>, refs: seq<nat>, pins: seq<nat>, disk: Disk, latest: Disk, blocks: seq<nat>)
    requires Coherent(bufs, refs, pins, disk, latest) && Quiet(bufs, refs) && PinnedFor(bufs, pins, blocks)
    ensures Settled(disk, latest, blocks)
  {
  }

  lemma StaysQuiet(bufs: seq<Buf>, refs: seq<nat>, bufs': seq<Buf>, refs': seq<nat>, pins: seq<nat>,
                   disk: Disk, latest: Disk)
    requires Quiet(bufs, refs) && OthersKept(bufs, refs, bufs', refs') && Coherent(bufs', refs', pins, disk, latest)
    ensures Quiet(bufs', refs')
  {
  }

  lemma UnpinFirst(bufs: seq<Buf>, pins: seq<nat>, blocks: seq<nat>, i: nat)
    requires PinnedFor(bufs, pins, blocks) && Unique(bufs) && Distinct(blocks)
    requires i < |bufs| && |blocks| > 0 && Tagged(bufs[i], blocks[0]) && pins[i] == 1
    ensures PinnedFor(bufs, pins[i := 0], blocks[1..])
  {
    forall k | 0 <= k < |blocks[1..]| ensures Showing(bufs, blocks[1..][k]) {
      assert blocks[1..][k] == blocks[k + 1];
      assert Showing(bufs, blocks[k + 1]);
    }
    forall j | 0 <= j < |bufs|
      ensures pins[i := 0][j] == if bufs[j].dev == ROOTDEV && bufs[j].blockno in blocks[1..] then 1 else 0
    {
      assert bufs[j].blockno in blocks <==> bufs[j].blockno == blocks[0] || bufs[j].blockno in blocks[1..];
      assert blocks[0] !in blocks[1..];
    }
  }

  /** With nothing pinned and one buffer taken, some other buffer is free. */
  lemma UnpinnedIsFree(bufs: seq<Buf>, refs: seq<nat>, pins: seq<nat>, disk: Disk, latest: Disk, l: nat)
    requires Coherent(bufs, refs, pins, disk, latest) && PinnedFor(bufs, pins, [])
    requires forall i :: 0 <= i < NBUF && i != l ==> refs[i] == 0
    ensures Free(bufs)
  {
    var j := if l == 0 then 1 else 0;
    assert bufs[j].refcnt == 0;
  }

  lemma SettledSameLog(disk: Disk, latest: Disk, blocks: seq<nat>, start: nat)
    requires Settled(disk, latest, blocks) && start + LOGBLOCKS < |disk| && AllHome(blocks, start, |disk|)
    ensures SameLog(disk, latest, start)
  {
  }

  function Upto(n: nat): (s: set<nat>)
    ensures |s| == n && forall i: nat :: i in s <==> i < n
  {
    if n == 0 then {} else Upto(n - 1) + {n - 1}
  }

  lemma {:induction false} DistinctFits(s: seq<nat>, within: set<nat>)
    requires Distinct(s) && forall i :: 0 <= i < |s| ==> s[i] in within
    ensures |s| <= |within|
  {
    if s != [] {
      DistinctFits(s[1..], within - {s[0]});
    }
  }

  /** The buffers that processes hold and that the log has not pinned. */
  ghost function HeldBeside(bufs: seq<Buf>, refs: seq<nat>, lh: seq<nat>): set<nat>
    requires |refs| == |bufs|
  {
    set i | 0 <= i < |bufs| && refs[i] > 0 && bufs[i].blockno !in lh
  }

  ghost function PinnedBufs(bufs: seq<Buf>, lh: seq<nat>): set<nat> {
    set i | 0 <= i < |bufs| && bufs[i].dev == ROOTDEV && bufs[i].blockno in lh
  }

  /** bget can recycle a buffer exactly when logged blocks and other held buffers leave one over. */
  lemma FreeIffNotFull(bufs: seq<Buf>, refs: seq<nat>, pins: seq<nat>, disk: Disk, latest: Disk, lh: seq<nat>)
    requires Coherent(bufs, refs, pins, disk, latest) && PinnedFor(bufs, pins, lh) && Distinct(lh)
    requires |refs| == |bufs|
    ensures Free(bufs) <==> |lh| + |HeldBeside(bufs, refs, lh)| < NBUF
  {
    var pinned, held := PinnedBufs(bufs, lh), HeldBeside(bufs, refs, lh);
    PinnedBufsCount(bufs, pins, lh);
    forall i: nat | i < |bufs| ensures i in pinned + held <==> bufs[i].refcnt > 0 {
      ReferencedIsHeld(bufs, refs, pins, disk, latest, lh, i);
    }
    hide Coherent, PinnedFor, PinnedBufs, HeldBeside;
    assert pinned !! held by {
      PinnedNotHeld(bufs, refs, lh);
    }
    InTable(bufs, refs, lh);
    if Free(bufs) {
      var f :| 0 <= f < |bufs| && bufs[f].refcnt == 0;
      SubsetSize(pinned + held, Upto(|bufs|) - {f});
    } else {
      SubsetSize(Upto(|bufs|), pinned + held);
    }
  }

  lemma PinnedNotHeld(bufs: seq<Buf>, refs: seq<nat>, lh: seq<nat>)
    requires |refs| == |bufs|
    ensures PinnedBufs(bufs, lh) !! HeldBeside(bufs, refs, lh)
  {
  }

  lemma InTable(bufs: seq<Buf>, refs: seq<nat>, lh: seq<nat>)
    requires |refs| == |bufs|
    ensures forall i: nat :: i in PinnedBufs(bufs, lh) + HeldBeside(bufs, refs, lh) ==> i < |bufs|
  {
  }

  lemma ReferencedIsHeld(bufs: seq<Buf>, refs: seq<nat>, pins: seq<nat>, disk: Disk, latest: Disk, lh: seq<nat>, i: nat)
    requires Coherent(bufs, refs, pins, disk, latest) && PinnedFor(bufs, pins, lh) && i < |bufs|
    ensures i in PinnedBufs(bufs, lh) + HeldBeside(bufs, refs, lh) <==> bufs[i].refcnt > 0
  {
  }

  lemma SubsetSize(a: set<nat>, b: set<nat>)
    requires a <= b
    ensures |a| <= |b|
  {
    assert b == a + (b - a);
  }

  ghost function BufferOf(bufs: seq<Buf>, b: nat): (i: nat)
    requires Showing(bufs, b)
    ensures i < |bufs| && Tagged(bufs[i], b)
  {
    var i :| 0 <= i < |bufs| && Tagged(bufs[i], b) && bufs[i].valid; i
  }

  /** Each logged block has exactly one buffer. */
  lemma PinnedBufsCount(bufs: seq<Buf>, pins: seq<nat>, lh: seq<nat>)
    requires PinnedFor(bufs, pins, lh) && Distinct(lh) && Unique(bufs)
    ensures |PinnedBufs(bufs, lh)| == |lh|
  {
    AtLeastLogged(bufs, pins, lh);
    AtMostLogged(bufs, lh, PinnedBufs(bufs, lh));
  }

  lemma AtLeastLogged(bufs: seq<Buf>, pins: seq<nat>, lh: seq<nat>)
    requires PinnedFor(bufs, pins, lh) && Distinct(lh)
    ensures |lh| <= |PinnedBufs(bufs, lh)|
  {
    assert forall k :: 0 <= k < |lh| ==> Showing(bufs, lh[k]);
    var at := seq(|lh|, k requires 0 <= k < |lh| => BufferOf(bufs, lh[k]));
    forall k | 0 <= k < |at| ensures at[k] in PinnedBufs(bufs, lh) && Tagged(bufs[at[k]], lh[k]) {
    }
    hide PinnedFor, BufferOf, PinnedBufs;
    DistinctFits(at, PinnedBufs(bufs, lh));
  }

  /** Distinct buffers of logged blocks carry distinct blocks. */
  lemma {:induction false} AtMostLogged(bufs: seq<Buf>, lh: seq<nat>, some: set<nat>)
    requires Unique(bufs) && some <= PinnedBufs(bufs, lh)
    ensures |some| <= |lh|
  {
    if some != {} {
      var i :| i in some;
      var k :| 0 <= k < |lh| && lh[k] == bufs[i].blockno;
      var rest := lh[..k] + lh[k + 1..];
      forall j | j in some - {i} ensures j in PinnedBufs(bufs, rest) {
        StillListed(lh, k, bufs[j].blockno);
      }
      AtMostLogged(bufs, rest, some - {i});
    }
  }

  lemma StillListed(lh: seq<nat>, k: nat, n: nat)
    requires k < |lh| && n in lh && n != lh[k]
    ensures n in lh[..k] + lh[k + 1..]
  {
    var j :| 0 <= j < |lh| && lh[j] == n;
    assert lh[j] == if j < k then lh[..k][j] else lh[k + 1..][j - k - 1];
  }

  datatype LogWriteResult = Recorded | TooBig | OutsideTransaction

  datatype StoreResult = Stored | NoBuffers | LogFull

  lemma SettledLog(disk: Disk, latest: Disk, blocks: seq<nat>, start: nat, n: nat)
    requires Settled(disk, latest, blocks) && start + LOGBLOCKS < |disk| && AllHome(blocks, start, |disk|)
    requires InLog(start, n)
    ensures disk[n] == latest[n]
  {
  }

  /** The same contents reach the cache and the disk. */
  lemma SettledWritten(disk: Disk, latest: Disk, blocks: seq<nat>, n: nat, x: Block)
    requires Settled(disk, latest, blocks) && n < |disk| == |latest|
    ensures Settled(disk[n := x], latest[n := x], blocks)
    ensures blocks != [] && blocks[0] == n ==> Settled(disk[n := x], latest[n := x], blocks[1..])
  {
  }

  lemma SettledAll(disk: Disk, latest: Disk)
    requires Settled(disk, latest, [])
    ensures disk == latest
  {
  }

  lemma LockedIsCounted(bufs: seq<Buf>, refs: seq<nat>, pins: seq<nat>, disk: Disk, latest: Disk, b: nat)
    requires Coherent(bufs, refs, pins, disk, latest) && b < NBUF && bufs[b].holder != 0
    ensures bufs[b].refcnt > 0 && bufs[b].dev == ROOTDEV
  {
  }

  /** Using one block's buffer and giving it back leaves the others' buffers to them. */
  lemma HeldOneKeepsOthers(bufs: seq<Buf>, refs: seq<nat>, bufs': seq<Buf>, b: nat, n: nat)
    requires |bufs'| == |bufs| == |refs| && Back(bufs, refs, bufs', b, n)
    requires forall i :: 0 <= i < |bufs| && i != b ==> bufs'[i] == bufs[i]
    ensures OthersKept(bufs, refs, bufs', refs)
  {
  }

  /** log_write's absorption: a block is listed once. */
  function Record(lh: seq<nat>, b: nat): seq<nat> {
    if b in lh then lh else lh + [b]
  }

  lemma PinAppend(bufs: seq<Buf>, pins: seq<nat>, lh: seq<nat>, i: nat, b: Buf)
    requires PinnedFor(bufs, pins, lh) && Unique(bufs) && i < |bufs| && bufs[i].dev == ROOTDEV
    requires bufs[i].blockno !in lh && b.dev == ROOTDEV && b.blockno == bufs[i].blockno && b.valid
    ensures pins[i] == 0 && PinnedFor(bufs[i := b], pins[i := 1], lh + [b.blockno])
  {
    var bufs', lh' := bufs[i := b], lh + [b.blockno];
    forall k | 0 <= k < |lh'| ensures Showing(bufs', lh'[k]) {
      if k < |lh| {
        assert Showing(bufs, lh[k]);
        var j :| 0 <= j < |bufs| && Tagged(bufs[j], lh[k]) && bufs[j].valid;
        assert Tagged(bufs'[j], lh[k]);
      } else {
        assert Tagged(bufs'[i], lh'[k]);
      }
    }
  }

  class Log {
    const bc: Bcache
    const start: nat
    var lh: seq<nat>
    var outstanding: nat

    constructor (bc: Bcache, start: nat)
      ensures this.bc == bc && this.start == start && lh == [] && outstanding == 0
    {
      this.bc, this.start, lh, outstanding := bc, start, [], 0;
    }

    ghost predicate Sized()
      reads this, bc
    {
      start + LOGBLOCKS < |bc.disk| && |lh| <= LOGBLOCKS && AllHome(lh, start, |bc.disk|)
    }

    /** The state while operations run: exactly the blocks logged are pinned. */
    ghost predicate Steady()
      reads this, bc
    {
      bc.Valid() && Sized() && Distinct(lh) && PinnedFor(bc.bufs, bc.pins, lh)
    }

    /** The state during commit, `pinned` being the logged blocks still to install. */
    ghost predicate Ready(pinned: seq<nat>)
      reads this, bc
    {
      && bc.Valid() && Sized() && PinnedFor(bc.bufs, bc.pins, pinned)
      && Clear(bc.bufs, bc.refs, start, lh) && Settled(bc.disk, bc.latest, pinned)
    }

    /** begin_op, when no commit is under way; false is the wait for log space. */
    method BeginOp() returns (admitted: bool)
      modifies this`outstanding
      ensures admitted <==> |lh| + (old(outstanding) + 1) * MAXOPBLOCKS <= LOGBLOCKS
      ensures outstanding == old(outstanding) + if admitted then 1 else 0
    {
      if |lh| + (outstanding + 1) * MAXOPBLOCKS > LOGBLOCKS {
        return false;
      }
      outstanding := outstanding + 1;
      return true;
    }

    /** end_op up to its commit: the last operation out is the one to commit. */
    method EndOp() returns (last: bool)
      requires outstanding > 0
      modifies this`outstanding
      ensures outstanding == old(outstanding) - 1
      ensures last <==> outstanding == 0
    {
      outstanding := outstanding - 1;
      last := outstanding == 0;
    }

    /** With nothing held, commit can start. */
    lemma QuietIsReady()
      requires Steady() && Quiet(bc.bufs, bc.refs)
      ensures Ready(lh)
    {
      QuietIsSettled(bc.bufs, bc.refs, bc.pins, bc.disk, bc.latest, lh);
    }

    /** memmove from one held buffer to the other, then write the second to disk. */
    method CopyAndWrite(from: nat, to: nat, pid: nat, ghost pinned: seq<nat>)
      requires bc.Valid() && from < NBUF && to < NBUF && PinnedFor(bc.bufs, bc.pins, pinned)
      requires pid != 0 && bc.bufs[to].holder == pid && bc.bufs[to].valid && bc.bufs[to].dev == ROOTDEV
      modifies bc`disk, bc`latest, bc`writes, bc`bufs
      ensures bc.Valid() && PinnedFor(bc.bufs, bc.pins, pinned)
      ensures bc.bufs[to].blockno < |old(bc.disk)| && |old(bc.disk)| == |old(bc.latest)|
      ensures bc.disk == old(bc.disk)[bc.bufs[to].blockno := old(bc.bufs)[from].data]
      ensures bc.latest == old(bc.latest)[bc.bufs[to].blockno := old(bc.bufs)[from].data]
      ensures bc.writes == old(bc.writes) + [bc.disk]
      ensures bc.bufs == old(bc.bufs)[to := old(bc.bufs)[to].(data := old(bc.bufs)[from].data)]
    {
      hide Coherent, Linked, ByRelease, PinnedFor;
      ghost var held := bc.bufs;
      bc.Modify(to, pid, bc.bufs[from].data);
      bc.Bwrite(to, pid);
      RefreshTagged(held, bc.pins, pinned, to, bc.bufs[to]);
    }

    /** The two brelses that close each turn. */
    method ReleaseBoth(a: nat, b: nat, ghost pinned: seq<nat>)
      requires bc.Valid() && a < NBUF && b < NBUF && a != b && PinnedFor(bc.bufs, bc.pins, pinned)
      requires bc.bufs[a].dev == bc.bufs[b].dev == ROOTDEV && bc.bufs[a].valid && bc.bufs[b].valid
      requires bc.bufs[a].holder == bc.bufs[b].holder == KERNEL
      requires bc.bufs[a].blockno < |bc.disk| && bc.bufs[b].blockno < |bc.disk|
      requires bc.pins[a] > 0 || bc.disk[bc.bufs[a].blockno] == bc.latest[bc.bufs[a].blockno]
      requires bc.pins[b] > 0 || bc.disk[bc.bufs[b].blockno] == bc.latest[bc.bufs[b].blockno]
      modifies bc`bufs, bc`refs, bc`next, bc`prev, bc`ring, bc`released, bc`clock
      ensures bc.Valid() && PinnedFor(bc.bufs, bc.pins, pinned)
      ensures old(bc.refs)[a] > 0 && old(bc.refs)[b] > 0
      ensures bc.refs == old(bc.refs)[a := old(bc.refs)[a] - 1][b := old(bc.refs)[b] - 1]
      ensures bc.bufs == old(bc.bufs)[a := old(bc.bufs)[a].(holder := 0, refcnt := bc.refs[a] + bc.pins[a])]
                                     [b := old(bc.bufs)[b].(holder := 0, refcnt := bc.refs[b] + bc.pins[b])]
    {
      hide Coherent, Linked, ByRelease, PinnedFor;
      ghost var held := bc.bufs;
      bc.Brelse(a, KERNEL);
      RefreshTagged(held, bc.pins, pinned, a, bc.bufs[a]);
      bc.Brelse(b, KERNEL);
      RefreshTagged(held[a := bc.bufs[a]], bc.pins, pinned, b, bc.bufs[b]);
    }

    /** install_trans's bunpin of the block it has just written. */
    method UnpinInstalled(d: nat, ghost pinned: seq<nat>)
      requires bc.Valid() && d < NBUF && PinnedFor(bc.bufs, bc.pins, pinned) && Distinct(pinned) && |pinned| > 0
      requires Tagged(bc.bufs[d], pinned[0]) && bc.bufs[d].valid && pinned[0] < |bc.disk| && bc.bufs[d].holder != 0
      modifies bc`bufs, bc`pins
      ensures bc.Valid() && PinnedFor(bc.bufs, bc.pins, pinned[1..])
      ensures bc.pins == old(bc.pins)[d := 0]
      ensures bc.bufs == old(bc.bufs)[d := old(bc.bufs)[d].(refcnt := old(bc.bufs)[d].refcnt - 1)]
    {
      hide Coherent, Linked, ByRelease, PinnedFor;
      ghost var written, pins := bc.bufs, bc.pins;
      LoggedIsPinned(written, pins, pinned, pinned[0]);
      bc.Bunpin(d);
      CoherentIsUnique(bc.bufs, bc.refs, bc.pins, bc.disk, bc.latest);
      RefreshTagged(written, pins, pinned, d, bc.bufs[d]);
      UnpinFirst(bc.bufs, pins, pinned, d);
    }

    /** Buffer l shows the log block and h the home block, both locked by this process; the rest is as it was. */
    ghost predicate Taken(slot: nat, home: nat, l: nat, h: nat, bufs: seq<Buf>, refs: seq<nat>)
      reads bc
    {
      && |bc.bufs| == |bc.pins| == |bufs| == |refs| == NBUF && slot < |bc.latest| && home < |bc.latest|
      && l < NBUF && h < NBUF && l != h
      && bc.refs == refs[l := 1][h := refs[h] + 1] && refs[l] == 0
      && (refs[h] > 0 ==> Tagged(bufs[h], home) && bufs[h].holder == 0)
      && bc.bufs == bufs[l := Buf(ROOTDEV, slot, true, 1, bc.latest[slot], KERNEL)]
                        [h := Buf(ROOTDEV, home, true, refs[h] + 1 + bc.pins[h], bc.latest[home], KERNEL)]
    }

    /**
     The two breads that open each turn of write_log and install_trans: a log
     block, then a home block that is pinned (commit) or in a cache no one uses (recovery).
     */
    method BreadPair(slot: nat, home: nat, ghost pinned: seq<nat>) returns (ok: bool, l: nat, h: nat)
      requires Ready(pinned) && slot < |bc.disk| && home < |bc.disk| && home in lh
      requires InLog(start, slot) && !InLog(start, home) && AllHome(pinned, start, |bc.disk|)
      requires home in pinned || (pinned == [] && Quiet(bc.bufs, bc.refs))
      modifies bc`bufs, bc`refs
      ensures bc.Valid() && PinnedFor(bc.bufs, bc.pins, pinned)
      ensures ok <==> old(Free(bc.bufs))
      ensures !ok ==> bc.bufs == old(bc.bufs) && bc.refs == old(bc.refs)
      ensures ok ==> Taken(slot, home, l, h, old(bc.bufs), old(bc.refs))
      ensures ok ==> bc.pins[l] == 0 && bc.pins[h] == if home in pinned then 1 else 0
    {
      hide Coherent, Linked, ByRelease, PinnedFor;
      ghost var bufs0, refs0, pins := bc.bufs, bc.refs, bc.pins;
      UnloggedIsUnpinned(bufs0, pins, pinned, slot);
      CoherentSizes(bufs0, refs0, pins, bc.disk, bc.latest);
      l, h := 0, 0;
      var r := bc.Bread(slot, KERNEL);
      if r.None? {
        return false, 0, 0;
      }
      ok, l := true, r.value;
      RetagUnpinned(bufs0, pins, pinned, l, bc.bufs[l]);
      ghost var bufs1 := bc.bufs;
      if home in pinned {
        LoggedIsPinned(bufs1, pins, pinned, home);
      } else {
        UnloggedIsUnpinned(bufs1, pins, pinned, home);
        UnpinnedIsFree(bufs1, bc.refs, pins, bc.disk, bc.latest, l);
      }
      r := bc.Bread(home, KERNEL);
      h := r.value;
      if home in pinned {
        RefreshTagged(bufs1, pins, pinned, h, bc.bufs[h]);
      } else {
        RetagUnpinned(bufs1, pins, pinned, h, bc.bufs[h]);
      }
    }

    /** One turn of write_log's loop; false is bget's panic. */
    method CopyToLog(tail: nat) returns (ok: bool)
      requires Ready(lh) && tail < |lh|
      modifies bc
      ensures Ready(lh) && |old(bc.disk)| == |old(bc.latest)|
      ensures OthersKept(old(bc.bufs), old(bc.refs), bc.bufs, bc.refs)
      ensures ok <==> old(Free(bc.bufs))
      ensures ok ==> Free(bc.bufs)
      ensures !ok ==> bc.disk == old(bc.disk) && bc.writes == old(bc.writes)
      ensures ok ==> bc.disk == old(bc.disk)[start + 1 + tail := old(bc.latest)[lh[tail]]]
      ensures ok ==> bc.latest == old(bc.latest)[start + 1 + tail := old(bc.latest)[lh[tail]]]
      ensures ok ==> bc.writes == old(bc.writes) + [bc.disk]
    {
      hide Coherent, Linked, ByRelease, PinnedFor, Clear, OthersKept, Settled;
      ghost var bufs0, refs0 := bc.bufs, bc.refs;
      var to, from;
      ok, to, from := BreadPair(start + 1 + tail, lh[tail], lh);
      if ok {
        CopyAndWrite(from, to, KERNEL, lh);
        ReleaseBoth(from, to, lh);
        assert bc.bufs[to].refcnt == 0;
        assert bc.refs == refs0;
        SettledWritten(old(bc.disk), old(bc.latest), lh, start + 1 + tail, old(bc.latest)[lh[tail]]);
        TurnKeepsOthers(bufs0, refs0, bc.bufs, to, start + 1 + tail, from, lh[tail], start, lh);
      } else {
        OthersKeptSame(bufs0, refs0);
      }
    }

    /** The end of a turn of install_trans. */
    method UnpinAndRelease(l: nat, d: nat, recovering: bool, ghost pinned: seq<nat>)
      requires bc.Valid() && l < NBUF && d < NBUF && l != d && PinnedFor(bc.bufs, bc.pins, pinned)
      requires bc.bufs[l].dev == bc.bufs[d].dev == ROOTDEV && bc.bufs[l].valid && bc.bufs[d].valid
      requires bc.bufs[l].holder == bc.bufs[d].holder == KERNEL
      requires bc.bufs[l].blockno < |bc.disk| && bc.disk[bc.bufs[l].blockno] == bc.latest[bc.bufs[l].blockno]
      requires bc.bufs[d].blockno < |bc.disk| && bc.disk[bc.bufs[d].blockno] == bc.latest[bc.bufs[d].blockno]
      requires if recovering then pinned == [] else |pinned| > 0 && pinned[0] == bc.bufs[d].blockno && Distinct(pinned)
      modifies bc`bufs, bc`pins, bc`refs, bc`next, bc`prev, bc`ring, bc`released, bc`clock
      ensures bc.Valid() && PinnedFor(bc.bufs, bc.pins, if recovering then [] else pinned[1..])
      ensures bc.pins == if recovering then old(bc.pins) else old(bc.pins)[d := 0]
      ensures old(bc.refs)[l] > 0 && old(bc.refs)[d] > 0
      ensures bc.refs == old(bc.refs)[l := old(bc.refs)[l] - 1][d := old(bc.refs)[d] - 1]
      ensures bc.bufs == old(bc.bufs)[l := old(bc.bufs)[l].(holder := 0, refcnt := bc.refs[l] + bc.pins[l])]
                                     [d := old(bc.bufs)[d].(holder := 0, refcnt := bc.refs[d] + bc.pins[d])]
    {
      hide Coherent, Linked, ByRelease, PinnedFor;
      if recovering {
        ReleaseBoth(l, d, []);
      } else {
        UnpinInstalled(d, pinned);
        ReleaseBoth(l, d, pinned[1..]);
      }
    }

    /** One turn of install_trans's loop; `recovering` as in the source. */
    method InstallOne(tail: nat, recovering: bool, ghost pinned: seq<nat>)
      requires tail < |lh| && Ready(pinned) && Free(bc.bufs) && AllHome(pinned, start, |bc.disk|)
      requires recovering ==> pinned == [] && Quiet(bc.bufs, bc.refs)
      requires !recovering ==> |pinned| > 0 && pinned[0] == lh[tail] && Distinct(pinned)
      modifies bc
      ensures Ready(if recovering then [] else pinned[1..]) && Free(bc.bufs)
      ensures OthersKept(old(bc.bufs), old(bc.refs), bc.bufs, bc.refs)
      ensures recovering ==> Quiet(bc.bufs, bc.refs)
      ensures |old(bc.disk)| == |old(bc.latest)|
      ensures bc.disk == old(bc.disk)[lh[tail] := old(bc.latest)[start + 1 + tail]]
      ensures bc.latest == old(bc.latest)[lh[tail] := old(bc.latest)[start + 1 + tail]]
      ensures bc.writes == old(bc.writes) + [bc.disk]
    {
      hide Coherent, Linked, ByRelease, PinnedFor, Clear, OthersKept, Settled;
      ghost var bufs0, refs0 := bc.bufs, bc.refs;
      SettledLog(bc.disk, bc.latest, pinned, start, start + 1 + tail);
      var _, l, d := BreadPair(start + 1 + tail, lh[tail], pinned);
      CopyAndWrite(l, d, KERNEL, pinned);
      UnpinAndRelease(l, d, recovering, pinned);
      assert bc.bufs[l].refcnt == 0;
      assert bc.refs == refs0;
      SettledWritten(old(bc.disk), old(bc.latest), pinned, lh[tail], old(bc.latest)[start + 1 + tail]);
      TurnKeepsOthers(bufs0, refs0, bc.bufs, l, start + 1 + tail, d, lh[tail], start, lh);
    }

    /** write_head. */
    method WriteHead(ghost pinned: seq<nat>)
      requires Ready(pinned) && Free(bc.bufs) && AllHome(pinned, start, |bc.disk|)
      modifies bc
      ensures Ready(pinned) && Free(bc.bufs)
      ensures OthersKept(old(bc.bufs), old(bc.refs), bc.bufs, bc.refs)
      ensures |old(bc.disk)| == |old(bc.latest)|
      ensures bc.latest == old(bc.latest)[start := EncodeHead(old(bc.latest)[start], lh)]
      ensures bc.disk == old(bc.disk)[start := EncodeHead(old(bc.latest)[start], lh)]
      ensures bc.writes == old(bc.writes) + [bc.disk]
    {
      hide Coherent, Linked, ByRelease, PinnedFor, OthersKept, Settled;
      ghost var bufs0, refs0, pins := bc.bufs, bc.refs, bc.pins;
      UnloggedIsUnpinned(bufs0, pins, pinned, start);
      var r := bc.Bread(start, KERNEL);
      var l := r.value;
      RetagUnpinned(bufs0, pins, pinned, l, bc.bufs[l]);
      ghost var held := bc.bufs;
      bc.Modify(l, KERNEL, EncodeHead(bc.bufs[l].data, lh));
      bc.Bwrite(l, KERNEL);
      bc.Brelse(l, KERNEL);
      RefreshTagged(held, pins, pinned, l, bc.bufs[l]);
      assert bc.bufs == held[l := bc.bufs[l]];
      assert bc.bufs[l].refcnt == 0;
      assert bc.refs == refs0;
      SettledWritten(old(bc.disk), old(bc.latest), pinned, start, EncodeHead(old(bc.latest)[start], lh));
      TurnKeepsOthers(bufs0, refs0, bc.bufs, l, start, l, start, start, lh);
    }

    /** write_log: false is bget's panic, before anything reached the disk. */
    method WriteLog() returns (ok: bool)
      requires Ready(lh)
      modifies bc
      ensures Ready(lh) && |old(bc.disk)| == |bc.disk| == |old(bc.latest)|
      ensures OthersKept(old(bc.bufs), old(bc.refs), bc.bufs, bc.refs)
      ensures ok <==> lh == [] || old(Free(bc.bufs))
      ensures !ok ==> bc.disk == old(bc.disk) && bc.writes == old(bc.writes)
      ensures ok && lh != [] ==> Free(bc.bufs)
      ensures ok ==> bc.disk == Logged(old(bc.disk), old(bc.latest), start, lh, |lh|)
      ensures ok ==> bc.latest == Logged(old(bc.latest), old(bc.latest), start, lh, |lh|)
      ensures ok ==> bc.writes == old(bc.writes) + LogTrace(old(bc.disk), old(bc.latest), start, lh, |lh|)
    {
      hide Coherent, Linked, ByRelease, PinnedFor, Clear, Settled, OthersKept, Free;
      ghost var d, c, w, bufs0, refs0 := bc.disk, bc.latest, bc.writes, bc.bufs, bc.refs;
      OthersKeptSame(bufs0, refs0);
      for tail := 0 to |lh|
        invariant Ready(lh) && |d| == |bc.disk| == |c| && OthersKept(bufs0, refs0, bc.bufs, bc.refs)
        invariant if tail == 0 then Free(bc.bufs) == old(Free(bc.bufs)) else Free(bc.bufs) && old(Free(bc.bufs))
        invariant bc.disk == Logged(d, c, start, lh, tail)
        invariant bc.latest == Logged(c, c, start, lh, tail)
        invariant bc.writes == w + LogTrace(d, c, start, lh, tail)
      {
        ghost var bufs1, refs1 := bc.bufs, bc.refs;
        ok := CopyToLog(tail);
        OthersKeptTrans(bufs0, refs0, bufs1, refs1, bc.bufs, bc.refs);
        if !ok {
          return;
        }
      }
      ok := true;
    }

    /** install_trans(0), which also drops the log's pins. */
    method InstallCommitted()
      requires Ready(lh) && Free(bc.bufs) && Distinct(lh)
      requires SameLog(bc.disk, bc.latest, start)
      modifies bc
      ensures Ready([]) && Free(bc.bufs) && |old(bc.disk)| == |bc.disk| == |old(bc.latest)|
      ensures OthersKept(old(bc.bufs), old(bc.refs), bc.bufs, bc.refs)
      ensures bc.disk == Installed(old(bc.disk), start, lh, |lh|)
      ensures bc.latest == Installed(old(bc.latest), start, lh, |lh|)
      ensures bc.writes == old(bc.writes) + InstallTrace(old(bc.disk), start, lh, |lh|)
    {
      hide Coherent, Linked, ByRelease, PinnedFor, Clear, Settled, OthersKept, Free, SameLog;
      ghost var d, c, w, bufs0, refs0 := bc.disk, bc.latest, bc.writes, bc.bufs, bc.refs;
      assert lh[0..] == lh;
      InstalledNone(d, start, lh);
      InstalledNone(c, start, lh);
      OthersKeptSame(bufs0, refs0);
      for tail := 0 to |lh|
        invariant Ready(lh[tail..]) && Free(bc.bufs) && |d| == |bc.disk| == |c|
        invariant OthersKept(bufs0, refs0, bc.bufs, bc.refs)
        invariant bc.disk == Installed(d, start, lh, tail) && bc.latest == Installed(c, start, lh, tail)
        invariant bc.writes == w + InstallTrace(d, start, lh, tail)
      {
        ghost var bufs1, refs1 := bc.bufs, bc.refs;
        InstallStep(d, c, start, lh, tail);
        InstallOne(tail, false, lh[tail..]);
        assert lh[tail..][1..] == lh[tail + 1..];
        OthersKeptTrans(bufs0, refs0, bufs1, refs1, bc.bufs, bc.refs);
      }
      assert lh[|lh|..] == [];
    }

    /** install_trans(1), on the cache of a freshly booted kernel. */
    method InstallRecovering()
      requires Ready([]) && Free(bc.bufs) && Quiet(bc.bufs, bc.refs)
      requires SameLog(bc.disk, bc.latest, start)
      modifies bc
      ensures Ready([]) && Free(bc.bufs) && Quiet(bc.bufs, bc.refs) && |old(bc.disk)| == |bc.disk| == |old(bc.latest)|
      ensures bc.disk == Installed(old(bc.disk), start, lh, |lh|)
      ensures bc.latest == Installed(old(bc.latest), start, lh, |lh|)
      ensures bc.writes == old(bc.writes) + InstallTrace(old(bc.disk), start, lh, |lh|)
    {
      hide Coherent, Linked, ByRelease, PinnedFor, Clear, Settled, OthersKept, Quiet, Free, SameLog;
      ghost var d, c, w := bc.disk, bc.latest, bc.writes;
      for tail := 0 to |lh|
        invariant Ready([]) && Free(bc.bufs) && Quiet(bc.bufs, bc.refs) && |d| == |bc.disk| == |c|
        invariant bc.disk == Installed(d, start, lh, tail) && bc.latest == Installed(c, start, lh, tail)
        invariant bc.writes == w + InstallTrace(d, start, lh, tail)
      {
        InstallStep(d, c, start, lh, tail);
        InstallOne(tail, true, []);
      }
    }

    /** commit up to and including the header write, the real commit. */
    method WriteLogAndHead() returns (ok: bool)
      requires Ready(lh) && lh != [] && |bc.disk| == |bc.latest|
      modifies bc
      ensures OthersKept(old(bc.bufs), old(bc.refs), bc.bufs, bc.refs)
      ensures ok <==> old(Free(bc.bufs))
      ensures !ok ==> bc.disk == old(bc.disk) && bc.writes == old(bc.writes)
      ensures ok ==> Ready(lh) && Free(bc.bufs) && |old(bc.disk)| == |old(bc.latest)|
      ensures ok ==> SameLog(bc.disk, bc.latest, start)
      ensures ok ==> bc.disk == CommitPoint(old(bc.disk), old(bc.latest), start, lh)
      ensures ok ==> bc.latest == CommitPoint(old(bc.latest), old(bc.latest), start, lh)
      ensures ok ==> bc.writes == old(bc.writes) + LogTrace(old(bc.disk), old(bc.latest), start, lh, |lh|) + [bc.disk]
    {
      hide Coherent, Linked, ByRelease, PinnedFor, Clear, Settled, OthersKept, Free, SameLog, SameHome, LogTrace;
      SettledLog(bc.disk, bc.latest, lh, start, start);
      ok := WriteLog();
      if ok {
        ghost var bufs1, refs1 := bc.bufs, bc.refs;
        WriteHead(lh);
        SettledSameLog(bc.disk, bc.latest, lh, start);
        OthersKeptTrans(old(bc.bufs), old(bc.refs), bufs1, refs1, bc.bufs, bc.refs);
      }
    }

    /** commit after the header write: install, then erase the header. */
    method InstallAndErase()
      requires Ready(lh) && Distinct(lh) && Free(bc.bufs) && SameLog(bc.disk, bc.latest, start)
      modifies bc, this`lh
      ensures lh == [] && Ready([]) && |old(bc.disk)| == |old(bc.latest)|
      ensures OthersKept(old(bc.bufs), old(bc.refs), bc.bufs, bc.refs)
      ensures bc.disk == bc.latest == ClearHead(Installed(old(bc.latest), start, old(lh), |old(lh)|), start)
      ensures bc.writes == old(bc.writes) + InstallTrace(old(bc.disk), start, old(lh), |old(lh)|) + [bc.disk]
      ensures bc.disk == ClearHead(Installed(old(bc.disk), start, old(lh), |old(lh)|), start)
    {
      hide Coherent, Linked, ByRelease, PinnedFor, Settled, OthersKept, Free, SameLog, InstallTrace;
      InstallCommitted();
      ghost var bufs1, refs1 := bc.bufs, bc.refs;
      SettledAll(bc.disk, bc.latest);
      lh := [];
      WriteHead([]);
      OthersKeptTrans(old(bc.bufs), old(bc.refs), bufs1, refs1, bc.bufs, bc.refs);
    }

    /**
     commit, while other processes hold any buffers outside the log area.  It
     fails, with bget's panic, exactly when the logged blocks and the buffers
     that others hold beside them are all the buffers there are; otherwise the
     disk goes through the states of CommitTrace.
     */
    method Commit() returns (ok: bool)
      requires Ready(lh) && Distinct(lh) && bc.disk[start][0] == 0
      modifies bc, this`lh
      ensures ok <==> old(lh) == [] || |old(lh)| + |old(HeldBeside(bc.bufs, bc.refs, lh))| < NBUF
      ensures !ok ==> bc.disk == old(bc.disk) && bc.writes == old(bc.writes)
      ensures |old(bc.disk)| == |old(bc.latest)|
      ensures OthersKept(old(bc.bufs), old(bc.refs), bc.bufs, bc.refs)
      ensures ok ==> lh == [] && Ready([]) && bc.disk == bc.latest && bc.disk[start][0] == 0
      ensures ok ==> SameHome(bc.latest, old(bc.latest), start)
      ensures ok ==> bc.writes == old(bc.writes) + CommitTrace(old(bc.disk), old(bc.latest), start, old(lh))
    {
      hide Coherent, Linked, ByRelease, PinnedFor, Clear, Settled, OthersKept, HeldBeside, Free, SameLog, LogTrace,
        InstallTrace;
      ghost var c, l, bufs0, refs0 := bc.latest, lh, bc.bufs, bc.refs;
      FreeIffNotFull(bufs0, refs0, bc.pins, bc.disk, bc.latest, lh);
      ok := true;
      if |lh| > 0 {
        ok := WriteLogAndHead();
        if ok {
          ghost var bufs1, refs1 := bc.bufs, bc.refs;
          InstallAndErase();
          CommitKeepsSource(c, start, l);
          OthersKeptTrans(bufs0, refs0, bufs1, refs1, bc.bufs, bc.refs);
        }
      } else {
        SettledAll(bc.disk, bc.latest);
        OthersKeptSame(bufs0, refs0);
      }
    }

    /** read_head. */
    method ReadHead()
      requires lh == [] && Ready([]) && Quiet(bc.bufs, bc.refs) && LogOk(bc.disk, start)
      modifies bc, this`lh
      ensures Ready([]) && Quiet(bc.bufs, bc.refs)
      ensures bc.disk == bc.latest == old(bc.disk) && bc.writes == old(bc.writes)
      ensures lh == Entries(bc.disk[start])
    {
      hide Coherent, Linked, ByRelease, PinnedFor, Settled;
      ghost var bufs0, pins := bc.bufs, bc.pins;
      SettledAll(bc.disk, bc.latest);
      UnloggedIsUnpinned(bufs0, pins, [], start);
      UnpinnedIsFree(bufs0, bc.refs, pins, bc.disk, bc.latest, 0);
      var r := bc.Bread(start, KERNEL);
      RetagUnpinned(bufs0, pins, [], r.value, bc.bufs[r.value]);
      ghost var held := bc.bufs;
      lh := Entries(bc.bufs[r.value].data);
      bc.Brelse(r.value, KERNEL);
      RefreshTagged(held, pins, [], r.value, bc.bufs[r.value]);
    }

    /** recover_from_log, on a freshly booted kernel. */
    method RecoverFromLog()
      requires lh == [] && Ready([]) && Quiet(bc.bufs, bc.refs) && LogOk(bc.disk, start)
      modifies bc, this`lh
      ensures lh == [] && Ready([]) && Quiet(bc.bufs, bc.refs)
      ensures bc.disk == bc.latest == Recovered(old(bc.disk), start)
      ensures bc.disk[start][0] == 0
      ensures bc.writes == old(bc.writes) + RecoveryTrace(old(bc.disk), start)
    {
      hide Coherent, Linked, ByRelease, PinnedFor, Free, InstallTrace;
      ReadHead();
      UnpinnedIsFree(bc.bufs, bc.refs, bc.pins, bc.disk, bc.latest, 0);
      InstallRecovering();
      lh := [];
      ghost var bufs1, refs1 := bc.bufs, bc.refs;
      WriteHead([]);
      StaysQuiet(bufs1, refs1, bc.bufs, bc.refs, bc.pins, bc.disk, bc.latest);
    }

    /**
     log_write by a process that holds the buffer: record the block and pin its
     buffer, unless it is already recorded.
     */
    method LogWrite(b: nat) returns (r: LogWriteResult)
      requires Steady() && b < NBUF && bc.bufs[b].holder != 0 && bc.bufs[b].valid
      requires Home(start, |bc.disk|, bc.bufs[b].blockno)
      modifies bc`bufs, bc`pins, this`lh
      ensures Steady()
      ensures r == TooBig <==> |old(lh)| >= LOGBLOCKS
      ensures r == OutsideTransaction <==> |old(lh)| < LOGBLOCKS && outstanding < 1
      ensures lh == if r == Recorded then Record(old(lh), bc.bufs[b].blockno) else old(lh)
      ensures bc.bufs == old(bc.bufs)[b := old(bc.bufs)[b].(refcnt := bc.bufs[b].refcnt)]
      ensures r == Recorded ==> bc.pins == old(bc.pins)[b := 1]
      ensures r != Recorded ==> bc.bufs == old(bc.bufs) && bc.pins == old(bc.pins)
    {
      hide Coherent, Linked, ByRelease, PinnedFor;
      if |lh| >= LOGBLOCKS {
        return TooBig;
      }
      if outstanding < 1 {
        return OutsideTransaction;
      }
      LockedIsCounted(bc.bufs, bc.refs, bc.pins, bc.disk, bc.latest, b);
      var blockno, i := bc.bufs[b].blockno, 0;
      while i < |lh| && lh[i] != blockno
        invariant 0 <= i <= |lh| && blockno !in lh[..i]
      {
        i := i + 1;
      }
      if i == |lh| {
        assert lh[..i] == lh;
        CoherentIsUnique(bc.bufs, bc.refs, bc.pins, bc.disk, bc.latest);
        PinAppend(bc.bufs, bc.pins, lh, b, bc.bufs[b].(refcnt := bc.bufs[b].refcnt + 1));
        bc.Bpin(b);
        lh := lh + [blockno];
      } else {
        LoggedIsPinned(bc.bufs, bc.pins, lh, blockno);
      }
      r := Recorded;
    }

    /**
     The file system's use of a block: bread, change its data, log_write, brelse,
     by a process that may hold other buffers and among others that do.  The two
     panics are bget's, when the block is not cached and every buffer is in use,
     and log_write's, when the log is full.
     */
    method Store(blockno: nat, data: Block) returns (r: StoreResult)
      requires Steady() && outstanding > 0 && Home(start, |bc.disk|, blockno) && Unlocked(bc.bufs, blockno)
      modifies bc, this`lh
      ensures r == NoBuffers <==> !old(Cached(bc.bufs, blockno)) && !old(Free(bc.bufs))
      ensures r == LogFull <==> r != NoBuffers && |old(lh)| >= LOGBLOCKS
      ensures bc.disk == old(bc.disk) && bc.writes == old(bc.writes)
      ensures r == Stored ==> Steady() && lh == Record(old(lh), blockno) && blockno < |old(bc.latest)|
      ensures r == Stored ==> bc.latest == old(bc.latest)[blockno := data]
      ensures r == Stored ==> OthersKept(old(bc.bufs), old(bc.refs), bc.bufs, bc.refs)
    {
      hide Coherent, Linked, ByRelease, PinnedFor, Free, OthersKept;
      ghost var bufs0, refs0 := bc.bufs, bc.refs;
      var t := Take(blockno);
      if t.None? {
        return NoBuffers;
      }
      var b := t.value;
      var w := ModifyAndLog(b, data);
      if w == TooBig {
        return LogFull;
      }
      LetGo(b);
      r := Stored;
      assert bc.refs == refs0;
      HeldOneKeepsOthers(bufs0, refs0, bc.bufs, b, blockno);
    }

    method ModifyAndLog(b: nat, data: Block) returns (r: LogWriteResult)
      requires Steady() && outstanding > 0 && b < NBUF && bc.bufs[b].holder == KERNEL && bc.bufs[b].valid
      requires bc.bufs[b].dev == ROOTDEV && Home(start, |bc.disk|, bc.bufs[b].blockno)
      modifies bc`bufs, bc`pins, bc`latest, this`lh
      ensures Steady() && bc.bufs[b].blockno < |old(bc.latest)|
      ensures bc.latest == old(bc.latest)[bc.bufs[b].blockno := data]
      ensures r == TooBig <==> |old(lh)| >= LOGBLOCKS
      ensures r == TooBig || r == Recorded
      ensures bc.bufs == old(bc.bufs)[b := old(bc.bufs)[b].(refcnt := bc.bufs[b].refcnt, data := data)]
      ensures r == Recorded ==> lh == Record(old(lh), bc.bufs[b].blockno) && bc.pins[b] == 1
    {
      hide Coherent, Linked, ByRelease, PinnedFor;
      ghost var held := bc.bufs;
      bc.Modify(b, KERNEL, data);
      RefreshTagged(held, bc.pins, lh, b, bc.bufs[b]);
      r := LogWrite(b);
    }

    /** bread of a block that no one has locked; None is bget's panic. */
    method Take(blockno: nat) returns (r: Option<nat>)
      requires Steady() && blockno < |bc.disk| && Unlocked(bc.bufs, blockno)
      modifies bc`bufs, bc`refs
      ensures Steady()
      ensures r.None? <==> !old(Cached(bc.bufs, blockno)) && !old(Free(bc.bufs))
      ensures r.None? ==> bc.bufs == old(bc.bufs) && bc.refs == old(bc.refs)
      ensures r.Some? ==>
        var b := r.value;
        && b < NBUF && bc.refs == old(bc.refs)[b := old(bc.refs)[b] + 1]
        && bc.bufs == old(bc.bufs)[b := Buf(ROOTDEV, blockno, true, bc.refs[b] + bc.pins[b], bc.latest[blockno],
          KERNEL)]
        && (old(bc.refs)[b] > 0 ==> Tagged(old(bc.bufs)[b], blockno) && old(bc.bufs)[b].holder == 0)
    {
      hide Coherent, Linked, ByRelease, PinnedFor;
      ghost var bufs0 := bc.bufs;
      if blockno in lh {
        LoggedIsPinned(bufs0, bc.pins, lh, blockno);
      } else {
        UnloggedIsUnpinned(bufs0, bc.pins, lh, blockno);
      }
      r := bc.Bread(blockno, KERNEL);
      if r.Some? {
        if blockno in lh {
          RefreshTagged(bufs0, bc.pins, lh, r.value, bc.bufs[r.value]);
        } else {
          RetagUnpinned(bufs0, bc.pins, lh, r.value, bc.bufs[r.value]);
        }
      }
    }

    /** brelse of a buffer whose contents are logged or on disk. */
    method LetGo(b: nat)
      requires Steady() && b < NBUF && bc.bufs[b].holder == KERNEL
      requires bc.bufs[b].valid && bc.bufs[b].dev == ROOTDEV && bc.bufs[b].blockno < |bc.disk|
      requires bc.pins[b] > 0 || bc.disk[bc.bufs[b].blockno] == bc.latest[bc.bufs[b].blockno]
      modifies bc`bufs, bc`refs, bc`next, bc`prev, bc`ring, bc`released, bc`clock
      ensures Steady() && old(bc.refs)[b] > 0 && bc.refs == old(bc.refs)[b := old(bc.refs)[b] - 1]
      ensures bc.bufs == old(bc.bufs)[b := old(bc.bufs)[b].(holder := 0, refcnt := bc.refs[b] + bc.pins[b])]
    {
      hide Coherent, Linked, ByRelease, PinnedFor;
      ghost var held := bc.bufs;
      bc.Brelse(b, KERNEL);
      RefreshTagged(held, bc.pins, lh, b, bc.bufs[b]);
    }

    /** bread and brelse of a reader; None is bget's panic. */
    method Fetch(blockno: nat) returns (data: Option<Block>)
      requires Steady() && blockno < |bc.disk| && Unlocked(bc.bufs, blockno)
      modifies bc
      ensures Steady() && bc.disk == old(bc.disk) && bc.writes == old(bc.writes) && bc.latest == old(bc.latest)
      ensures data.None? <==> !old(Cached(bc.bufs, blockno)) && !old(Free(bc.bufs))
      ensures data.Some? ==> data.value == bc.latest[blockno]
      ensures OthersKept(old(bc.bufs), old(bc.refs), bc.bufs, bc.refs)
    {
      hide Coherent, Linked, ByRelease, PinnedFor, Free, OthersKept;
      ghost var bufs0, refs0 := bc.bufs, bc.refs;
      if blockno !in lh {
        UnlockedIsOnDisk(bc.bufs, bc.refs, bc.pins, bc.disk, bc.latest, lh, blockno);
      }
      var b := Take(blockno);
      if b.None? {
        OthersKeptSame(bufs0, refs0);
        return None;
      }
      data := Some(bc.bufs[b.value].data);
      if blockno in lh {
        LoggedIsPinned(bc.bufs, bc.pins, lh, blockno);
      }
      LetGo(b.value);
      assert bc.refs == refs0;
      HeldOneKeepsOthers(bufs0, refs0, bc.bufs, b.value, blockno);
    }
  }
}
