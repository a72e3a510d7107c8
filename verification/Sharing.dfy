/**
 Processes that share the buffer cache.  A slot is one bread in progress: a
 process has one for every buffer it holds, and moves it through bget,
 acquiresleep, the disk read, modifications, log_write, releasesleep and the
 rest of brelse.
 */
module Sharing {
  import opened Wrappers
  import opened Params
  import opened Blocks
  import opened Ring
  import opened Bio
  import opened Redo
  import opened LogLayer

  /** Dirty: modified and not given to log_write since. */
  datatype Stage = Waiting | Locked | Filled | Dirty | Unlocked

  datatype Slot = Empty | Ref(pid: nat, buf: nat, block: nat, stage: Stage)

  predicate Holds(s: Slot) {
    s.Ref? && s.stage != Waiting && s.stage != Unlocked
  }

  predicate Sees(s: Slot) {
    Holds(s) && s.stage != Locked
  }

  function One(s: Slot, b: nat): nat {
    if s.Ref? && s.buf == b then 1 else 0
  }

  /** How many slots refer to buffer b. */
  function Count(slots: seq<Slot>, b: nat): nat {
    if slots == [] then 0 else Count(slots[..|slots| - 1], b) + One(slots[|slots| - 1], b)
  }

  lemma {:induction false} CountUpdate(slots: seq<Slot>, i: nat, s: Slot, b: nat)
    requires i < |slots|
    ensures Count(slots[i := s], b) == Count(slots, b) - One(slots[i], b) + One(s, b)
  {
    var front := slots[..|slots| - 1];
    if i == |slots| - 1 {
      assert slots[i := s][..|slots| - 1] == front;
    } else {
      assert slots[i := s][..|slots| - 1] == front[i := s];
      CountUpdate(front, i, s, b);
    }
  }

  lemma {:induction false} CountAtLeast(slots: seq<Slot>, i: nat, b: nat)
    requires i < |slots|
    ensures One(slots[i], b) <= Count(slots, b)
  {
    if i < |slots| - 1 {
      CountAtLeast(slots[..|slots| - 1], i, b);
    }
  }

  lemma CountTwo(slots: seq<Slot>, i: nat, j: nat, b: nat)
    requires i < |slots| && j < |slots| && i != j
    ensures One(slots[i], b) + One(slots[j], b) <= Count(slots, b)
  {
    CountUpdate(slots, i, Empty, b);
    CountAtLeast(slots[i := Empty], j, b);
  }

  lemma {:induction false} NoSlotsCount(slots: seq<Slot>, b: nat)
    requires forall i :: 0 <= i < |slots| ==> slots[i] == Empty
    ensures Count(slots, b) == 0
  {
    if slots != [] {
      NoSlotsCount(slots[..|slots| - 1], b);
    }
  }

  ghost predicate SlotOk(bufs: seq<Buf>, lock: seq<Option<nat>>, s: Slot, i: nat)
    requires s.Ref?
  {
    && s.buf < |bufs| && s.buf < |lock| && s.pid != 0 && Tagged(bufs[s.buf], s.block)
    && (Holds(s) ==> bufs[s.buf].holder == s.pid && lock[s.buf] == Some(i))
    && (Sees(s) ==> bufs[s.buf].valid)
  }

  /** Buffer b's lock is free, or slot lock[b] holds it. */
  ghost predicate LockOk(bufs: seq<Buf>, slots: seq<Slot>, lock: seq<Option<nat>>, b: nat)
    requires b < |bufs| && b < |lock|
  {
    bufs[b].holder != 0 ==>
      lock[b].Some? && lock[b].value < |slots| && Holds(slots[lock[b].value]) && slots[lock[b].value].buf == b
  }

  /** The cache's reference counts and locks are those of the slots. */
  ghost predicate SlotInv(bufs: seq<Buf>, refs: seq<nat>, slots: seq<Slot>, lock: seq<Option<nat>>) {
    && |bufs| == |refs| == |lock| == NBUF
    && (forall b: nat :: b < NBUF ==> refs[b] == Count(slots, b))
    && (forall i: nat :: i < |slots| && slots[i].Ref? ==> SlotOk(bufs, lock, slots[i], i))
    && (forall b: nat :: b < NBUF ==> LockOk(bufs, slots, lock, b))
  }

  /** What a section may do to the lock of the buffer it works on. */
  ghost predicate LockStep(b: Buf, l: Option<nat>, b': Buf, l': Option<nat>, i: nat, s: Slot, s': Slot) {
    || (b'.holder == b.holder && l' == l && (Holds(s) <==> Holds(s')))
    || (b.holder == 0 && l' == Some(i) && Holds(s'))
    || (Holds(s) && !Holds(s') && b'.holder == 0)
  }

  /** A section of slot i on buffer b keeps counts and locks right. */
  lemma SlotStep(bufs: seq<Buf>, refs: seq<nat>, slots: seq<Slot>, lock: seq<Option<nat>>, i: nat, b: nat,
                 x: Buf, l: Option<nat>, s: Slot)
    requires SlotInv(bufs, refs, slots, lock) && i < |slots| && b < NBUF
    requires (slots[i].Ref? ==> slots[i].buf == b) && (s.Ref? ==> s.buf == b)
    requires refs[b] == 0 || (x.dev == bufs[b].dev && x.blockno == bufs[b].blockno && (bufs[b].valid ==> x.valid))
    requires LockStep(bufs[b], lock[b], x, l, i, slots[i], s)
    requires s.Ref? ==> SlotOk(bufs[b := x], lock[b := l], s, i)
    ensures refs[b] >= One(slots[i], b)
    ensures SlotInv(bufs[b := x], refs[b := refs[b] - One(slots[i], b) + One(s, b)], slots[i := s], lock[b := l])
  {
    var bufs', slots', lock' := bufs[b := x], slots[i := s], lock[b := l];
    CountAtLeast(slots, i, b);
    forall c: nat | c < NBUF
      ensures refs[b := refs[b] - One(slots[i], b) + One(s, b)][c] == Count(slots', c)
    {
      CountUpdate(slots, i, s, c);
    }
    forall j: nat | j < |slots'| && slots'[j].Ref? ensures SlotOk(bufs', lock', slots'[j], j) {
      if j != i {
        OtherSlotOk(bufs, refs, slots, lock, i, b, x, l, s, j);
      }
    }
    forall c: nat | c < NBUF ensures LockOk(bufs', slots', lock', c) {
      assert LockOk(bufs, slots, lock, c);
    }
  }

  lemma OtherSlotOk(bufs: seq<Buf>, refs: seq<nat>, slots: seq<Slot>, lock: seq<Option<nat>>, i: nat, b: nat,
                    x: Buf, l: Option<nat>, s: Slot, j: nat)
    requires SlotInv(bufs, refs, slots, lock) && i < |slots| && b < NBUF
    requires slots[i].Ref? ==> slots[i].buf == b
    requires refs[b] == 0 || (x.dev == bufs[b].dev && x.blockno == bufs[b].blockno && (bufs[b].valid ==> x.valid))
    requires LockStep(bufs[b], lock[b], x, l, i, slots[i], s)
    requires j < |slots| && j != i && slots[j].Ref?
    ensures SlotOk(bufs[b := x], lock[b := l], slots[j], j)
  {
    assert SlotOk(bufs, lock, slots[j], j);
    if slots[j].buf == b {
      CountAtLeast(slots, j, b);
      if Holds(slots[i]) {
        assert SlotOk(bufs, lock, slots[i], i);
      }
    }
  }

  /** A buffer that keeps its block, its lock and its validity leaves every slot as it is. */
  lemma BufferKeepsSlots(bufs: seq<Buf>, refs: seq<nat>, slots: seq<Slot>, lock: seq<Option<nat>>, b: nat, x: Buf)
    requires SlotInv(bufs, refs, slots, lock) && b < NBUF
    requires x.dev == bufs[b].dev && x.blockno == bufs[b].blockno && x.holder == bufs[b].holder
    requires bufs[b].valid ==> x.valid
    ensures SlotInv(bufs[b := x], refs, slots, lock)
  {
    var bufs' := bufs[b := x];
    forall i: nat | i < |slots| && slots[i].Ref? ensures SlotOk(bufs', lock, slots[i], i) {
      assert SlotOk(bufs, lock, slots[i], i);
    }
    forall c: nat | c < NBUF ensures LockOk(bufs', slots, lock, c) {
      assert LockOk(bufs, slots, lock, c);
    }
  }

  lemma SlotFacts(bufs: seq<Buf>, refs: seq<nat>, slots: seq<Slot>, lock: seq<Option<nat>>, i: nat)
    requires SlotInv(bufs, refs, slots, lock) && i < |slots| && slots[i].Ref?
    ensures |bufs| == |refs| == |lock| == NBUF && slots[i].buf < NBUF && refs[slots[i].buf] > 0
    ensures SlotOk(bufs, lock, slots[i], i)
  {
    CountAtLeast(slots, i, slots[i].buf);
  }

  /** bget: slot i gets a reference to the buffer found or recycled. */
  lemma SlotGets(bufs: seq<Buf>, refs: seq<nat>, slots: seq<Slot>, lock: seq<Option<nat>>, i: nat, b: nat, x: Buf,
                 s: Slot)
    requires SlotInv(bufs, refs, slots, lock) && i < |slots| && slots[i] == Empty && b < NBUF
    requires s.Ref? && s.buf == b && s.stage == Waiting && s.pid != 0 && Tagged(x, s.block)
      && x.holder == bufs[b].holder
    requires refs[b] == 0 || (Tagged(bufs[b], s.block) && x.valid == bufs[b].valid)
    ensures SlotInv(bufs[b := x], refs[b := refs[b] + 1], slots[i := s], lock)
  {
    SlotStep(bufs, refs, slots, lock, i, b, x, lock[b], s);
    assert lock[b := lock[b]] == lock;
  }

  /** Slot i moves to another stage, which may take or free its buffer's lock. */
  lemma SlotMoves(bufs: seq<Buf>, refs: seq<nat>, slots: seq<Slot>, lock: seq<Option<nat>>, i: nat, x: Buf,
                  l: Option<nat>, stage: Stage)
    requires SlotInv(bufs, refs, slots, lock) && i < |slots| && slots[i].Ref? && slots[i].buf < NBUF
    requires var b := slots[i].buf; var s := slots[i].(stage := stage);
      && x.dev == bufs[b].dev && x.blockno == bufs[b].blockno && (bufs[b].valid ==> x.valid)
      && LockStep(bufs[b], lock[b], x, l, i, slots[i], s) && SlotOk(bufs[b := x], lock[b := l], s, i)
    ensures SlotInv(bufs[slots[i].buf := x], refs, slots[i := slots[i].(stage := stage)], lock[slots[i].buf := l])
  {
    var b := slots[i].buf;
    SlotStep(bufs, refs, slots, lock, i, b, x, l, slots[i].(stage := stage));
    assert refs[b := refs[b]] == refs;
  }

  /** A reference that is not the lock's can be dropped: brelse's section never takes the holder's. */
  lemma CanDrop(bufs: seq<Buf>, refs: seq<nat>, slots: seq<Slot>, lock: seq<Option<nat>>, i: nat)
    requires SlotInv(bufs, refs, slots, lock) && i < |slots| && slots[i].Ref? && !Holds(slots[i])
    ensures slots[i].buf < NBUF && refs[slots[i].buf] > if bufs[slots[i].buf].holder != 0 then 1 else 0
  {
    var b := slots[i].buf;
    assert SlotOk(bufs, lock, slots[i], i);
    CountAtLeast(slots, i, b);
    if bufs[b].holder != 0 {
      assert LockOk(bufs, slots, lock, b);
      CountTwo(slots, i, lock[b].value, b);
    }
  }

  // Modified blocks.

  /** Contents missing on disk are logged, or some process has modified them and not logged them yet. */
  ghost predicate DirtyAt(slots: seq<Slot>, dirty: map<nat, nat>, n: nat) {
    n in dirty && dirty[n] < |slots| && slots[dirty[n]].Ref? && slots[dirty[n]].stage == Dirty
      && slots[dirty[n]].block == n
  }

  ghost predicate DirtyInv(disk: Disk, latest: Disk, pinned: seq<nat>, slots: seq<Slot>, dirty: map<nat, nat>) {
    && |disk| == |latest|
    && forall n: nat :: n < |disk| && disk[n] != latest[n] ==> n in pinned || DirtyAt(slots, dirty, n)
  }

  /** A slot that is not Dirty, and will not be, can change freely. */
  lemma DirtyKept(disk: Disk, latest: Disk, pinned: seq<nat>, slots: seq<Slot>, dirty: map<nat, nat>, i: nat, s: Slot)
    requires DirtyInv(disk, latest, pinned, slots, dirty) && i < |slots|
    requires slots[i].Ref? && slots[i].stage == Dirty ==> slots[i].block in pinned
    ensures DirtyInv(disk, latest, pinned, slots[i := s], dirty)
  {
    forall n: nat | n < |disk| && disk[n] != latest[n] ensures n in pinned || DirtyAt(slots[i := s], dirty, n) {
      assert n in pinned || DirtyAt(slots, dirty, n);
    }
  }

  /** A process modifies block n through slot i. */
  lemma DirtyModified(disk: Disk, latest: Disk, pinned: seq<nat>, slots: seq<Slot>, dirty: map<nat, nat>, i: nat,
                      s: Slot, data: Block)
    requires DirtyInv(disk, latest, pinned, slots, dirty) && i < |slots| && slots[i].Ref? && s.Ref?
    requires s.block == slots[i].block < |latest| && (s.stage == Dirty || s.block in pinned)
    ensures DirtyInv(disk, latest[s.block := data], pinned, slots[i := s],
                     if s.stage == Dirty then dirty[s.block := i] else dirty)
  {
    var slots', dirty' := slots[i := s], if s.stage == Dirty then dirty[s.block := i] else dirty;
    forall n: nat | n < |disk| && disk[n] != latest[s.block := data][n]
      ensures n in pinned || DirtyAt(slots', dirty', n)
    {
      if n != s.block {
        assert n in pinned || DirtyAt(slots, dirty, n);
      }
    }
  }

  lemma DirtyListed(disk: Disk, latest: Disk, pinned: seq<nat>, pinned': seq<nat>, slots: seq<Slot>, dirty: map<nat,
                    nat>)
    requires DirtyInv(disk, latest, pinned, slots, dirty) && forall n: nat :: n in pinned ==> n in pinned'
    ensures DirtyInv(disk, latest, pinned', slots, dirty)
  {
    forall n: nat | n < |disk| && disk[n] != latest[n] ensures n in pinned' || DirtyAt(slots, dirty, n) {
      assert n in pinned || DirtyAt(slots, dirty, n);
    }
  }

  /** What a lock holder that left nothing unlogged gives back is pinned or on disk. */
  lemma CanRelease(bufs: seq<Buf>, refs: seq<nat>, pins: seq<nat>, disk: Disk, latest: Disk, pinned: seq<nat>,
                   slots: seq<Slot>, lock: seq<Option<nat>>, dirty: map<nat, nat>, i: nat)
    requires Coherent(bufs, refs, pins, disk, latest) && PinnedFor(bufs, pins, pinned)
    requires SlotInv(bufs, refs, slots, lock) && DirtyInv(disk, latest, pinned, slots, dirty)
    requires i < |slots| && Sees(slots[i]) && slots[i].stage != Dirty && |pins| == NBUF
    ensures var b := slots[i].buf;
      && b < NBUF && bufs[b].holder == slots[i].pid != 0 && bufs[b].valid
      && bufs[b].blockno == slots[i].block < |disk| == |latest|
      && (pins[b] > 0 || disk[bufs[b].blockno] == latest[bufs[b].blockno])
  {
    var b, n := slots[i].buf, slots[i].block;
    assert SlotOk(bufs, lock, slots[i], i);
    if n in pinned {
      LoggedIsPinned(bufs, pins, pinned, n);
    } else if DirtyAt(slots, dirty, n) {
      OneHolder(bufs, refs, slots, lock, i, dirty[n]);
    }
  }

  /** Two slots that hold the same block's lock are one. */
  lemma OneHolder(bufs: seq<Buf>, refs: seq<nat>, slots: seq<Slot>, lock: seq<Option<nat>>, i: nat, j: nat)
    requires SlotInv(bufs, refs, slots, lock) && Unique(bufs) && i < |slots| && j < |slots|
    requires Holds(slots[i]) && Holds(slots[j]) && slots[i].block == slots[j].block
    ensures i == j
  {
    assert SlotOk(bufs, lock, slots[i], i) && SlotOk(bufs, lock, slots[j], j);
  }

  // Operations.

  predicate IsDirty(s: Slot) {
    s.Ref? && s.stage == Dirty
  }

  /** Only a process inside an operation has a modified block that is not logged, and it is a home block. */
  ghost predicate OpInv(slots: seq<Slot>, ops: set<nat>, start: nat, size: nat) {
    forall i: nat :: i < |slots| && IsDirty(slots[i]) ==> slots[i].pid in ops && Home(start, size, slots[i].block)
  }

  /** The process has logged every block it modified. */
  predicate Clean(slots: seq<Slot>, pid: nat) {
    forall i :: 0 <= i < |slots| ==> !(IsDirty(slots[i]) && slots[i].pid == pid)
  }

  lemma NoneDirty(disk: Disk, latest: Disk, pinned: seq<nat>, slots: seq<Slot>, dirty: map<nat, nat>, start: nat)
    requires DirtyInv(disk, latest, pinned, slots, dirty) && OpInv(slots, {}, start, |disk|)
    ensures Settled(disk, latest, pinned)
  {
  }

  lemma OpKept(slots: seq<Slot>, ops: set<nat>, start: nat, size: nat, i: nat, s: Slot)
    requires OpInv(slots, ops, start, size) && i < |slots|
    requires IsDirty(s) ==> s.pid in ops && Home(start, size, s.block)
    ensures OpInv(slots[i := s], ops, start, size)
  {
  }

  lemma OpEnds(slots: seq<Slot>, ops: set<nat>, start: nat, size: nat, pid: nat)
    requires OpInv(slots, ops, start, size) && Clean(slots, pid)
    ensures OpInv(slots, ops - {pid}, start, size)
  {
  }

  lemma OpBegins(slots: seq<Slot>, ops: set<nat>, start: nat, size: nat, pid: nat)
    requires OpInv(slots, ops, start, size)
    ensures OpInv(slots, ops + {pid}, start, size)
  {
  }

  /** The same contents reach the cache and the disk. */
  lemma DirtyWritten(disk: Disk, latest: Disk, pinned: seq<nat>, slots: seq<Slot>, dirty: map<nat, nat>, n: nat,
                     x: Block)
    requires DirtyInv(disk, latest, pinned, slots, dirty) && n < |disk| == |latest|
    ensures DirtyInv(disk[n := x], latest[n := x], pinned, slots, dirty)
  {
    forall m: nat | m < |disk| && disk[n := x][m] != latest[n := x][m] ensures m in pinned || DirtyAt(slots, dirty, m) {
      assert disk[m] != latest[m];
    }
  }

  /** A block that is on disk need not be pinned. */
  lemma DirtyUnpinned(disk: Disk, latest: Disk, pinned: seq<nat>, slots: seq<Slot>, dirty: map<nat, nat>)
    requires DirtyInv(disk, latest, pinned, slots, dirty) && pinned != []
    requires pinned[0] < |disk| == |latest| && disk[pinned[0]] == latest[pinned[0]]
    ensures DirtyInv(disk, latest, pinned[1..], slots, dirty)
  {
    forall m: nat | m < |disk| && disk[m] != latest[m] ensures m in pinned[1..] || DirtyAt(slots, dirty, m) {
      assert m in pinned ==> m == pinned[0] || m in pinned[1..];
    }
  }
}
