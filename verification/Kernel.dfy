/**
 Any number of processes, each holding any number of buffers, take turns on one
 cache and one log; the last operation to end commits, as a process like the
 others.  Every turn is one critical section of bio.c or log.c.
 */
module KernelRun {
  import opened Wrappers
  import opened Params
  import opened Blocks
  import opened Ring
  import opened Bio
  import opened Redo
  import opened LogLayer
  import opened Sharing
  import opened History
  import opened BlockStore

  datatype Turn =
    | Reference(i: nat, pid: nat, n: nat)  // bget up to its acquiresleep
    | Acquire(i: nat)                      // acquiresleep
    | Read(i: nat)                         // bread's disk read
    | Change(i: nat, data: Block)          // the holder writes the buffer's data
    | Record(i: nat)                       // log_write
    | Release(i: nat)                      // releasesleep
    | Drop(i: nat)                         // the rest of brelse
    | Begin(pid: nat)                      // begin_op
    | End(pid: nat)                        // end_op
    | CopyToLog(i: nat, j: nat)            // write_log's memmove and bwrite
    | WriteHead(i: nat)                    // write_head, of the list or of the empty list
    | InstallHome(i: nat, j: nat)          // install_trans's memmove and bwrite
    | Unpin(j: nat)                        // its bunpin
    | ClearList                            // lh.n = 0
    | EndCommit                            // committing = 0

  /** Panicked: bget found no buffer, or log_write found the log full. */
  datatype Outcome = Ran | Blocked | Panicked

  /** A later point of the same run. */
  ghost predicate Grows(a: Story, b: Story) {
    b.first == a.first && a.hist <= b.hist && a.trace <= b.trace && a.cuts <= b.cuts && a.cut <= b.cut
  }

  /** Slot i has moved to a stage and the others are as they were. */
  ghost predicate Moved(slots: seq<Slot>, slots': seq<Slot>, i: nat, stage: Stage) {
    i < |slots| && slots[i].Ref? && slots' == slots[i := slots[i].(stage := stage)]
  }

  ghost predicate Emptied(slots: seq<Slot>, slots': seq<Slot>, i: nat) {
    i < |slots| && slots' == slots[i := Empty]
  }

  /** Slot i now refers to a buffer of block n for the process. */
  ghost predicate Referred(slots: seq<Slot>, slots': seq<Slot>, i: nat, pid: nat, n: nat) {
    && i < |slots| == |slots'| && slots'[i].Ref?
    && slots' == slots[i := Ref(pid, slots'[i].buf, n, Waiting)]
  }

  /** The committer's next step inside its loops. */
  function Next(phase: Phase): Phase {
    match phase
    case Logging(t) => Logging(t + 1)
    case Installing(t) => Unpinning(t)
    case Unpinning(t) => Installing(t + 1)
    case _ => phase
  }

  function AfterHead(phase: Phase): Phase {
    if phase.Logging? then Installing(0) else Closing
  }

  /** bget changes one buffer: a cached block keeps it, an uncached one takes over an unpinned one. */
  lemma GetKeepsPinned(bufs: seq<Buf>, pins: seq<nat>, pinned: seq<nat>, b: nat, x: Buf)
    requires PinnedFor(bufs, pins, pinned) && b < |bufs| && x.dev == ROOTDEV
    requires (Tagged(bufs[b], x.blockno) && x.valid == bufs[b].valid) || (!Cached(bufs, x.blockno) && pins[b] == 0)
    ensures PinnedFor(bufs[b := x], pins, pinned)
  {
    if Tagged(bufs[b], x.blockno) {
      RefreshTagged(bufs, pins, pinned, b, x);
    } else {
      if x.blockno in pinned {
        LoggedIsPinned(bufs, pins, pinned, x.blockno);
      }
      RetagUnpinned(bufs, pins, pinned, b, x);
    }
  }

  lemma DataIsLatest(bufs: seq<Buf>, refs: seq<nat>, pins: seq<nat>, disk: Disk, latest: Disk, b: nat)
    requires Coherent(bufs, refs, pins, disk, latest) && b < NBUF && bufs[b].valid
    ensures bufs[b].dev == ROOTDEV && bufs[b].blockno < |latest| && bufs[b].data == latest[bufs[b].blockno]
  {
  }

  lemma PinnedTail(t: nat, lh: seq<nat>)
    requires t < |lh|
    ensures Pinned(Unpinning(t), lh) == lh[t..] && lh[t..][0] == lh[t]
    ensures Pinned(Installing(t), lh) == lh[t..] && Pinned(Installing(t + 1), lh) == lh[t..][1..]
  {
  }

  lemma DistinctTail(t: nat, lh: seq<nat>)
    requires t <= |lh| && Distinct(lh)
    ensures Distinct(lh[t..])
  {
  }

  lemma BusyIsIdle(start: nat, disk: Disk, latest: Disk, phase: Phase, lh: seq<nat>, ops: set<nat>, st: Story, pid: nat)
    requires StoryInv(start, disk, latest, phase, lh, ops, st) && pid in ops
    ensures phase == Idle
  {
  }

  lemma CommittingIsAlone(start: nat, disk: Disk, latest: Disk, phase: Phase, lh: seq<nat>, ops: set<nat>, st: Story)
    requires StoryInv(start, disk, latest, phase, lh, ops, st) && phase != Idle
    ensures ops == {}
  {
  }

  /** The story of a kernel that has just booted. */
  lemma StoryStarts(start: nat, d: Disk)
    requires start + LOGBLOCKS < |d| && d[start][0] == 0
    ensures StoryInv(start, d, d, Idle, [], {}, Story(d, [], 0, 0, [], [], d, d, []))
  {
  }

  lemma SlotsStart(bufs: seq<Buf>, refs: seq<nat>, slots: seq<Slot>, lock: seq<Option<nat>>)
    requires |bufs| == |lock| == NBUF && Quiet(bufs, refs) && forall i :: 0 <= i < |slots| ==> slots[i] == Empty
    ensures SlotInv(bufs, refs, slots, lock)
  {
    forall b: nat | b < NBUF ensures refs[b] == Count(slots, b) {
      NoSlotsCount(slots, b);
    }
  }

  class Kernel {
    const log: Log
    const bc: Bcache
    var slots: seq<Slot>
    var ops: set<nat>
    var phase: Phase
    var committer: nat
    ghost var lock: seq<Option<nat>>    // the slot that holds each buffer's lock
    ghost var dirty: map<nat, nat>      // the slot that last modified each block
    ghost var before: seq<Disk>
    ghost var story: Story

    /** The cache is coherent and pins what is logged and not yet installed. */
    ghost predicate CacheInv()
      reads this, log, bc
    {
      bc.Valid() && log.bc == bc && log.Sized() && Distinct(log.lh)
        && PinnedFor(bc.bufs, bc.pins, Pinned(phase, log.lh))
    }

    ghost predicate HoldingInv()
      reads this, log, bc
    {
      && SlotInv(bc.bufs, bc.refs, slots, lock)
      && DirtyInv(bc.disk, bc.latest, Pinned(phase, log.lh), slots, dirty)
      && OpInv(slots, ops, log.start, |bc.disk|)
    }

    ghost predicate Inv()
      reads this, log, bc
    {
      && CacheInv() && HoldingInv()
      && log.outstanding == |ops| && bc.writes == before + story.trace
      && StoryInv(log.start, bc.disk, bc.latest, phase, log.lh, ops, story)
    }

    constructor (log: Log, count: nat)
      requires AtRest(log)
      ensures Inv() && this.log == log && this.bc == log.bc && |slots| == count
      ensures story.first == log.bc.latest && story.hist == [] && before == log.bc.writes
    {
      this.log, this.bc := log, log.bc;
      slots, ops, phase, committer := seq(count, i => Empty), {}, Idle, 0;
      lock, dirty, before := seq(NBUF, i => None), map[], log.bc.writes;
      story := Story(log.bc.latest, [], 0, 0, [], [], log.bc.latest, log.bc.latest, []);
      new;
      hide StoryInv, SlotInv, Coherent, Linked, ByRelease, PinnedFor, Quiet;
      StoryStarts(log.start, bc.disk);
      SlotsStart(bc.bufs, bc.refs, slots, lock);
    }

    predicate InStage(i: nat, stage: Stage)
      reads this
    {
      i < |slots| && slots[i].Ref? && slots[i].stage == stage
    }

    /** A process inside an operation has locked and read a home block. */
    predicate MayWrite(i: nat)
      reads this, log, bc
    {
      i < |slots| && Sees(slots[i]) && slots[i].pid in ops && Home(log.start, |bc.disk|, slots[i].block)
    }

    /** The committer has read block n into slot i and keeps it locked. */
    predicate Uses(i: nat, n: nat)
      reads this
    {
      i < |slots| && Sees(slots[i]) && slots[i].pid == committer && slots[i].block == n
    }

    /**
     Where the code of the process stands at the turn and need not wait.  A process
     modifies and logs home blocks inside an operation, logs what it modified
     before it lets go of it, and leaves the log area to the committer.
     */
    predicate Enabled(t: Turn)
      reads this, log, bc
    {
      match t
      case Reference(i, pid, n) =>
        && i < |slots| && slots[i] == Empty && pid != 0 && n < |bc.disk|
        && (Home(log.start, |bc.disk|, n) || (phase != Idle && pid == committer))
      case Acquire(i) => InStage(i, Waiting) && slots[i].buf < |bc.bufs| && bc.bufs[slots[i].buf].holder == 0
      case Read(i) => InStage(i, Locked)
      case Change(i, _) => MayWrite(i)
      case Record(i) => MayWrite(i)
      case Release(i) => InStage(i, Filled)
      case Drop(i) => InStage(i, Stage.Unlocked)
      case Begin(pid) => pid !in ops && phase == Idle && |log.lh| + (log.outstanding + 1) * MAXOPBLOCKS <= LOGBLOCKS
      case End(pid) => pid in ops && Clean(slots, pid)
      case CopyToLog(i, j) =>
        phase.Logging? && phase.tail < |log.lh| && Uses(i, log.start + 1 + phase.tail) && Uses(j, log.lh[phase.tail])
      case WriteHead(i) => (phase == Logging(|log.lh|) || phase == Erasing) && Uses(i, log.start)
      case InstallHome(i, j) =>
        phase.Installing? && phase.tail < |log.lh| && Uses(i, log.start + 1 + phase.tail) && Uses(j, log.lh[phase.tail])
      case Unpin(j) => phase.Unpinning? && phase.tail < |log.lh| && Uses(j, log.lh[phase.tail])
      case ClearList => phase == Installing(|log.lh|)
      case EndCommit => phase == Closing
    }

    /** bget has no buffer for the block, or log_write no room in the log. */
    ghost predicate Panics(t: Turn)
      reads this, log, bc
    {
      match t
      case Reference(_, _, n) => !Cached(bc.bufs, n) && !Free(bc.bufs)
      case Record(_) => |log.lh| >= LOGBLOCKS
      case _ => false
    }

    /** bget up to its acquiresleep.  Only the committer uses the log area. */
    method ReferenceTurn(i: nat, pid: nat, n: nat) returns (o: Outcome)
      requires Inv()
      modifies this`slots, bc`bufs, bc`refs
      ensures Inv() && story == old(story) && before == old(before)
      ensures o == Blocked <==> !old(Enabled(Reference(i, pid, n)))
      ensures o == Panicked <==> old(Enabled(Reference(i, pid, n))) && old(Panics(Reference(i, pid, n)))
      ensures o == Ran ==> Referred(old(slots), slots, i, pid, n)
    {
      hide Coherent, Linked, ByRelease, PinnedFor, SlotInv, DirtyInv, OpInv, StoryInv, DiskInv;
      if !Enabled(Reference(i, pid, n)) {
        return Blocked;
      }
      ghost var bufs, refs, pinned := bc.bufs, bc.refs, Pinned(phase, log.lh);
      CoherentSizes(bufs, refs, bc.pins, bc.disk, bc.latest);
      var r := bc.Bget(n);
      if r.None? {
        return Panicked;
      }
      var s := Ref(pid, r.value, n, Waiting);
      GetKeepsPinned(bufs, bc.pins, pinned, r.value, bc.bufs[r.value]);
      SlotGets(bufs, refs, slots, lock, i, r.value, bc.bufs[r.value], s);
      DirtyKept(bc.disk, bc.latest, pinned, slots, dirty, i, s);
      OpKept(slots, ops, log.start, |bc.disk|, i, s);
      slots := slots[i := s];
      o := Ran;
    }

    method AcquireTurn(i: nat) returns (o: Outcome)
      requires Inv()
      modifies this`slots, this`lock, bc`bufs
      ensures Inv() && story == old(story) && before == old(before) && o != Panicked
      ensures o == Blocked <==> !old(Enabled(Acquire(i)))
      ensures o == Ran ==> Moved(old(slots), slots, i, Locked)
    {
      hide Coherent, Linked, ByRelease, PinnedFor, SlotInv, DirtyInv, OpInv, StoryInv, DiskInv;
      if !Enabled(Acquire(i)) {
        return Blocked;
      }
      SlotFacts(bc.bufs, bc.refs, slots, lock, i);
      var b := slots[i].buf;
      ghost var bufs, pinned := bc.bufs, Pinned(phase, log.lh);
      bc.AcquireSleep(b, slots[i].pid);
      RefreshTagged(bufs, bc.pins, pinned, b, bc.bufs[b]);
      SlotMoves(bufs, bc.refs, slots, lock, i, bc.bufs[b], Some(i), Locked);
      DirtyKept(bc.disk, bc.latest, pinned, slots, dirty, i, slots[i].(stage := Locked));
      OpKept(slots, ops, log.start, |bc.disk|, i, slots[i].(stage := Locked));
      slots := slots[i := slots[i].(stage := Locked)];
      lock := lock[b := Some(i)];
      o := Ran;
    }

    /** The end of bread: the process sees the buffer's data. */
    method ReadTurn(i: nat) returns (o: Outcome)
      requires Inv()
      modifies this`slots, this`story, bc`bufs
      ensures Inv() && before == old(before) && o != Panicked
      ensures o == Blocked <==> !old(Enabled(Read(i)))
      ensures o == Ran ==> Moved(old(slots), slots, i, Filled) && slots[i].buf < |bc.bufs|
      ensures o == Ran ==>
        var x := Saw(slots[i].pid, slots[i].block, bc.bufs[slots[i].buf].data);
        story == old(story).(hist := old(story).hist + [x])
      ensures o == Blocked ==> story == old(story)
    {
      hide Coherent, Linked, ByRelease, PinnedFor, SlotInv, DirtyInv, OpInv, StoryInv, DiskInv;
      if !Enabled(Read(i)) {
        return Blocked;
      }
      SlotFacts(bc.bufs, bc.refs, slots, lock, i);
      var s := slots[i];
      ghost var bufs, pinned := bc.bufs, Pinned(phase, log.lh);
      bc.Fill(s.buf, s.pid);
      RefreshTagged(bufs, bc.pins, pinned, s.buf, bc.bufs[s.buf]);
      SlotMoves(bufs, bc.refs, slots, lock, i, bc.bufs[s.buf], lock[s.buf], Filled);
      DirtyKept(bc.disk, bc.latest, pinned, slots, dirty, i, s.(stage := Filled));
      OpKept(slots, ops, log.start, |bc.disk|, i, s.(stage := Filled));
      StorySaw(log.start, bc.disk, bc.latest, phase, log.lh, ops, story, s.pid, s.block);
      assert lock[s.buf := lock[s.buf]] == lock;
      slots := slots[i := s.(stage := Filled)];
      story := story.(hist := story.hist + [Saw(s.pid, s.block, bc.bufs[s.buf].data)]);
      o := Ran;
    }

    /** A process inside an operation modifies a home block it has locked and read. */
    method ChangeTurn(i: nat, data: Block) returns (o: Outcome)
      requires Inv()
      modifies this`slots, this`dirty, this`story, bc`bufs, bc`latest
      ensures Inv() && before == old(before) && o != Panicked
      ensures o == Blocked <==> !old(Enabled(Change(i, data)))
      ensures o == Ran ==> Moved(old(slots), slots, i, Dirty)
      ensures o == Ran ==>
        story == old(story).(hist := old(story).hist + [Wrote(slots[i].pid, slots[i].block, data)])
      ensures o == Blocked ==> story == old(story)
    {
      hide Coherent, Linked, ByRelease, PinnedFor, SlotInv, DirtyInv, OpInv, StoryInv, DiskInv;
      if !Enabled(Change(i, data)) {
        return Blocked;
      }
      SlotFacts(bc.bufs, bc.refs, slots, lock, i);
      BusyIsIdle(log.start, bc.disk, bc.latest, phase, log.lh, ops, story, slots[i].pid);
      var s := slots[i].(stage := Dirty);
      ghost var bufs, latest := bc.bufs, bc.latest;
      bc.Modify(s.buf, s.pid, data);
      RefreshTagged(bufs, bc.pins, log.lh, s.buf, bc.bufs[s.buf]);
      SlotMoves(bufs, bc.refs, slots, lock, i, bc.bufs[s.buf], lock[s.buf], Dirty);
      DirtyModified(bc.disk, latest, log.lh, slots, dirty, i, s, data);
      OpKept(slots, ops, log.start, |bc.disk|, i, s);
      StoryWrote(log.start, bc.disk, latest, log.lh, ops, story, s.pid, s.block, data);
      assert lock[s.buf := lock[s.buf]] == lock;
      slots, dirty := slots[i := s], dirty[s.block := i];
      story := story.(hist := story.hist + [Wrote(s.pid, s.block, data)]);
      o := Ran;
    }

    /** log_write inside an operation. */
    method RecordTurn(i: nat) returns (o: Outcome)
      requires Inv()
      modifies this`slots, bc`bufs, bc`pins, log`lh
      ensures o != Panicked ==> Inv()
      ensures before == old(before) && story == old(story)
      ensures o == Blocked <==> !old(Enabled(Turn.Record(i)))
      ensures o == Panicked <==> old(Enabled(Turn.Record(i))) && old(Panics(Turn.Record(i)))
      ensures o == Ran ==> Moved(old(slots), slots, i, Filled)
      ensures o == Ran ==> log.lh == LogLayer.Record(old(log.lh), slots[i].block)
    {
      hide Coherent, Linked, ByRelease, PinnedFor, SlotInv, DirtyInv, OpInv, StoryInv, DiskInv;
      if !Enabled(Turn.Record(i)) {
        return Blocked;
      }
      SlotFacts(bc.bufs, bc.refs, slots, lock, i);
      BusyIsIdle(log.start, bc.disk, bc.latest, phase, log.lh, ops, story, slots[i].pid);
      var s := slots[i].(stage := Filled);
      ghost var bufs, lh := bc.bufs, log.lh;
      var r := log.LogWrite(s.buf);
      if r != Recorded {
        assert r == TooBig by { assert ops != {}; }
        return Panicked;
      }
      BufferKeepsSlots(bufs, bc.refs, slots, lock, s.buf, bc.bufs[s.buf]);
      SlotMoves(bc.bufs, bc.refs, slots, lock, i, bc.bufs[s.buf], lock[s.buf], Filled);
      DirtyListed(bc.disk, bc.latest, lh, log.lh, slots, dirty);
      DirtyKept(bc.disk, bc.latest, log.lh, slots, dirty, i, s);
      OpKept(slots, ops, log.start, |bc.disk|, i, s);
      StoryRecorded(log.start, bc.disk, bc.latest, lh, ops, story, log.lh);
      assert lock[s.buf := lock[s.buf]] == lock && bc.bufs[s.buf := bc.bufs[s.buf]] == bc.bufs;
      slots := slots[i := s];
      o := Ran;
    }

    /** releasesleep by a process that has logged what it modified. */
    method ReleaseTurn(i: nat) returns (o: Outcome)
      requires Inv()
      modifies this`slots, bc`bufs
      ensures Inv() && before == old(before) && story == old(story) && o != Panicked
      ensures o == Blocked <==> !old(Enabled(Release(i)))
      ensures o == Ran ==> Moved(old(slots), slots, i, Stage.Unlocked)
    {
      hide Coherent, Linked, ByRelease, PinnedFor, SlotInv, DirtyInv, OpInv, StoryInv, DiskInv;
      if !Enabled(Release(i)) {
        return Blocked;
      }
      var s := slots[i].(stage := Stage.Unlocked);
      ghost var bufs, pinned := bc.bufs, Pinned(phase, log.lh);
      SlotFacts(bc.bufs, bc.refs, slots, lock, i);
      CanRelease(bc.bufs, bc.refs, bc.pins, bc.disk, bc.latest, pinned, slots, lock, dirty, i);
      bc.ReleaseSleep(s.buf, s.pid);
      RefreshTagged(bufs, bc.pins, pinned, s.buf, bc.bufs[s.buf]);
      SlotMoves(bufs, bc.refs, slots, lock, i, bc.bufs[s.buf], lock[s.buf], Stage.Unlocked);
      DirtyKept(bc.disk, bc.latest, pinned, slots, dirty, i, s);
      OpKept(slots, ops, log.start, |bc.disk|, i, s);
      assert lock[s.buf := lock[s.buf]] == lock;
      slots := slots[i := s];
      o := Ran;
    }

    /** brelse's section under bcache.lock. */
    method DropTurn(i: nat) returns (o: Outcome)
      requires Inv()
      modifies this`slots, bc`bufs, bc`refs, bc`next, bc`prev, bc`ring, bc`released, bc`clock
      ensures Inv() && before == old(before) && story == old(story) && o != Panicked
      ensures o == Blocked <==> !old(Enabled(Drop(i)))
      ensures o == Ran ==> Emptied(old(slots), slots, i)
    {
      hide Coherent, Linked, ByRelease, PinnedFor, SlotInv, DirtyInv, OpInv, StoryInv, DiskInv;
      if !Enabled(Drop(i)) {
        return Blocked;
      }
      ghost var bufs, refs, pinned := bc.bufs, bc.refs, Pinned(phase, log.lh);
      var b := slots[i].buf;
      SlotFacts(bufs, refs, slots, lock, i);
      CanDrop(bufs, refs, slots, lock, i);
      bc.DropRef(b);
      RefreshTagged(bufs, bc.pins, pinned, b, bc.bufs[b]);
      SlotStep(bufs, refs, slots, lock, i, b, bc.bufs[b], lock[b], Empty);
      DirtyKept(bc.disk, bc.latest, pinned, slots, dirty, i, Empty);
      OpKept(slots, ops, log.start, |bc.disk|, i, Empty);
      assert lock[b := lock[b]] == lock;
      slots := slots[i := Empty];
      o := Ran;
    }

    /** begin_op; Blocked is its wait. */
    method BeginTurn(pid: nat) returns (o: Outcome)
      requires Inv()
      modifies this`ops, this`story, log`outstanding
      ensures Inv() && before == old(before) && o != Panicked && Grows(old(story), story)
      ensures o == Blocked <==> !old(Enabled(Begin(pid)))
      ensures o == Ran ==> ops == old(ops) + {pid} && story.hist == old(story).hist + [Began(pid)]
    {
      hide Coherent, Linked, ByRelease, PinnedFor, SlotInv, DirtyInv, OpInv, StoryInv, DiskInv;
      if pid in ops || phase != Idle {
        return Blocked;
      }
      var admitted := log.BeginOp();
      if !admitted {
        return Blocked;
      }
      OpBegins(slots, ops, log.start, |bc.disk|, pid);
      StoryBegan(log.start, bc.disk, bc.latest, log.lh, ops, story, pid);
      ops := ops + {pid};
      story := story.(hist := story.hist + [Began(pid)]);
      o := Ran;
    }

    /** end_op of a process that has logged what it modified; the last one becomes the committer. */
    method EndTurn(pid: nat) returns (o: Outcome)
      requires Inv()
      modifies this`ops, this`phase, this`committer, this`story, log`outstanding
      ensures Inv() && before == old(before) && o != Panicked && Grows(old(story), story)
      ensures o == Blocked <==> !old(Enabled(End(pid)))
      ensures o == Ran ==> ops == old(ops) - {pid} && story.hist == old(story).hist + [Ended(pid)]
      ensures o == Ran ==> (phase != Idle <==> ops == {})
      ensures o == Ran && ops == {} ==> committer == pid && phase == if log.lh == [] then Closing else Logging(0)
    {
      hide Coherent, Linked, ByRelease, PinnedFor, SlotInv, DirtyInv, OpInv, StoryInv, DiskInv, Settled;
      if !Enabled(End(pid)) {
        return Blocked;
      }
      BusyIsIdle(log.start, bc.disk, bc.latest, phase, log.lh, ops, story, pid);
      OpEnds(slots, ops, log.start, |bc.disk|, pid);
      var last := log.EndOp();
      ghost var hist := story.hist + [Ended(pid)];
      assert |ops - {pid}| == |ops| - 1;
      if last {
        assert ops == {pid};
        StartCommit(pid);
      } else {
        StoryEnded(log.start, bc.disk, bc.latest, log.lh, ops, story, pid);
        story := story.(hist := story.hist + [Ended(pid)]);
        ops := ops - {pid};
      }
      o := Ran;
    }

    /** end_op's committing = 1 and commit's test of lh.n. */
    method StartCommit(pid: nat)
      requires CacheInv() && HoldingInv() && phase == Idle && ops == {pid} && log.outstanding == 0 && Clean(slots, pid)
      requires bc.writes == before + story.trace && StoryInv(log.start, bc.disk, bc.latest, Idle, log.lh, ops, story)
      modifies this`ops, this`phase, this`committer, this`story
      ensures Inv() && before == old(before) && Grows(old(story), story) && slots == old(slots)
      ensures ops == {} && phase != Idle && committer == pid && story.hist == old(story).hist + [Ended(pid)]
      ensures phase == if log.lh == [] then Closing else Logging(0)
    {
      hide Coherent, Linked, ByRelease, PinnedFor, SlotInv, DirtyInv, OpInv, StoryInv, DiskInv, Settled, Clean;
      OpEnds(slots, ops, log.start, |bc.disk|, pid);
      assert ops - {pid} == {};
      CutInHistory(log.start, bc.disk, bc.latest, phase, log.lh, ops, story);
      ghost var hist := story.hist + [Ended(pid)];
      NoneDirty(bc.disk, bc.latest, log.lh, slots, dirty, log.start);
      committer := pid;
      if |log.lh| > 0 {
        StoryCommits(log.start, bc.disk, bc.latest, log.lh, ops, story, pid);
        phase := Logging(0);
        story := story.(hist := hist, next := |hist|, d := bc.disk, src := bc.latest, list := log.lh);
      } else {
        StoryCloses(log.start, bc.disk, bc.latest, ops, story, pid);
        phase := Closing;
        story := story.(hist := hist, next := |hist|, cut := |hist|);
      }
      ops := {};
    }

    /** memmove from the buffer of slot i to that of slot j, and the latter's bwrite. */
    method CopyHeld(i: nat, m: nat, j: nat, n: nat)
      requires CacheInv() && HoldingInv() && Uses(i, m) && Uses(j, n)
      modifies bc
      ensures CacheInv() && HoldingInv() && m < |old(bc.latest)| && n < |old(bc.latest)| == |old(bc.disk)|
      ensures bc.disk == old(bc.disk)[n := old(bc.latest)[m]] && bc.latest == old(bc.latest)[n := old(bc.latest)[m]]
      ensures bc.writes == old(bc.writes) + [bc.disk]
    {
      hide Coherent, Linked, ByRelease, PinnedFor, SlotInv, DirtyInv, OpInv, Pinned;
      var b := slots[j].buf;
      ghost var bufs, disk, latest, pinned := bc.bufs, bc.disk, bc.latest, Pinned(phase, log.lh);
      SlotFacts(bufs, bc.refs, slots, lock, i);
      SlotFacts(bufs, bc.refs, slots, lock, j);
      DataIsLatest(bufs, bc.refs, bc.pins, disk, latest, slots[i].buf);
      log.CopyAndWrite(slots[i].buf, b, committer, pinned);
      BufferKeepsSlots(bufs, bc.refs, slots, lock, b, bc.bufs[b]);
      DirtyWritten(disk, latest, pinned, slots, dirty, n, latest[m]);
    }

    /** One turn of write_log's loop, with both buffers locked. */
    method CopyToLogTurn(i: nat, j: nat) returns (o: Outcome)
      requires Inv()
      modifies this`phase, this`story, bc
      ensures Inv() && before == old(before) && o != Panicked && Grows(old(story), story)
      ensures o == Blocked <==> !old(Enabled(CopyToLog(i, j)))
      ensures o == Ran ==> slots == old(slots) && phase == Next(old(phase))
      ensures story.hist == old(story).hist && story.next == old(story).next
    {
      hide Coherent, Linked, ByRelease, PinnedFor, SlotInv, DirtyInv, OpInv, StoryInv, DiskInv;
      if !Enabled(CopyToLog(i, j)) {
        return Blocked;
      }
      var t := phase.tail;
      CommittingIsAlone(log.start, bc.disk, bc.latest, phase, log.lh, ops, story);
      StoryLogTurn(log.start, bc.disk, bc.latest, t, log.lh, story);
      CopyHeld(j, log.lh[t], i, log.start + 1 + t);
      phase := Logging(t + 1);
      story := story.(trace := story.trace + [bc.disk], cuts := story.cuts + [story.cut]);
      o := Ran;
    }

    /** write_head after write_log, which commits, or after the installation, which erases the log. */
    method WriteHeadTurn(i: nat) returns (o: Outcome)
      requires Inv()
      modifies this`phase, this`story, bc
      ensures Inv() && before == old(before) && o != Panicked && Grows(old(story), story)
      ensures o == Blocked <==> !old(Enabled(WriteHead(i)))
      ensures o == Ran ==> slots == old(slots) && phase == AfterHead(old(phase))
      ensures o == Ran && old(phase).Logging? ==> story.cut == old(story).next
      ensures story.hist == old(story).hist && story.next == old(story).next
    {
      hide Coherent, Linked, ByRelease, PinnedFor, SlotInv, DirtyInv, OpInv, StoryInv, DiskInv;
      if !Enabled(WriteHead(i)) {
        return Blocked;
      }
      ghost var disk, latest := bc.disk, bc.latest;
      CommittingIsAlone(log.start, disk, latest, phase, log.lh, ops, story);
      EncodeAndWrite(i);
      if phase.Logging? {
        StoryHeadTurn(log.start, disk, latest, log.lh, story);
        CutInHistory(log.start, disk, latest, phase, log.lh, ops, story);
        phase := Installing(0);
        story := story.(trace := story.trace + [bc.disk], cuts := story.cuts + [story.next], cut := story.next);
        assert log.lh[0..] == log.lh;
      } else {
        ErasingIsEmpty(log.start, disk, latest, log.lh, ops, story);
        StoryEraseTurn(log.start, disk, latest, story);
        phase := Closing;
        story := story.(trace := story.trace + [bc.disk], cuts := story.cuts + [story.cut]);
      }
      o := Ran;
    }

    /** write_head's stores into the header's buffer and its bwrite. */
    method EncodeAndWrite(i: nat)
      requires CacheInv() && HoldingInv() && Uses(i, log.start) && bc.Valid()
      modifies bc
      ensures CacheInv() && HoldingInv() && log.start < |old(bc.latest)| == |old(bc.disk)| && |log.lh| <= LOGBLOCKS
      ensures bc.disk == old(bc.disk)[log.start := EncodeHead(old(bc.latest)[log.start], log.lh)]
      ensures bc.latest == old(bc.latest)[log.start := EncodeHead(old(bc.latest)[log.start], log.lh)]
      ensures bc.writes == old(bc.writes) + [bc.disk]
    {
      hide Coherent, Linked, ByRelease, PinnedFor, SlotInv, DirtyInv, OpInv;
      var b := slots[i].buf;
      ghost var bufs, disk, latest, pinned := bc.bufs, bc.disk, bc.latest, Pinned(phase, log.lh);
      SlotFacts(bufs, bc.refs, slots, lock, i);
      DataIsLatest(bufs, bc.refs, bc.pins, disk, latest, b);
      bc.Modify(b, committer, EncodeHead(bc.bufs[b].data, log.lh));
      bc.Bwrite(b, committer);
      RefreshTagged(bufs, bc.pins, pinned, b, bc.bufs[b]);
      BufferKeepsSlots(bufs, bc.refs, slots, lock, b, bc.bufs[b]);
      DirtyWritten(disk, latest, pinned, slots, dirty, log.start, EncodeHead(latest[log.start], log.lh));
    }

    /** The memmove and bwrite of install_trans, with both buffers locked. */
    method InstallTurn(i: nat, j: nat) returns (o: Outcome)
      requires Inv()
      modifies this`phase, this`story, bc
      ensures Inv() && before == old(before) && o != Panicked && Grows(old(story), story)
      ensures o == Blocked <==> !old(Enabled(InstallHome(i, j)))
      ensures o == Ran ==> slots == old(slots) && phase == Next(old(phase))
      ensures story.hist == old(story).hist && story.next == old(story).next
    {
      hide Coherent, Linked, ByRelease, PinnedFor, SlotInv, DirtyInv, OpInv, StoryInv, DiskInv, Pinned;
      if !Enabled(InstallHome(i, j)) {
        return Blocked;
      }
      var t := phase.tail;
      PinnedTail(t, log.lh);
      CommittingIsAlone(log.start, bc.disk, bc.latest, phase, log.lh, ops, story);
      StoryInstallTurn(log.start, bc.disk, bc.latest, t, log.lh, story);
      CopyHeld(i, log.start + 1 + t, j, log.lh[t]);
      phase := Unpinning(t);
      story := story.(trace := story.trace + [bc.disk], cuts := story.cuts + [story.cut]);
      o := Ran;
    }

    /** The bunpin of install_trans, with the home block's buffer locked. */
    method UnpinTurn(j: nat) returns (o: Outcome)
      requires Inv()
      modifies this`phase, bc`bufs, bc`pins
      ensures Inv() && before == old(before) && story == old(story) && o != Panicked
      ensures o == Blocked <==> !old(Enabled(Unpin(j)))
      ensures o == Ran ==> slots == old(slots) && phase == Next(old(phase))
    {
      hide Coherent, Linked, ByRelease, PinnedFor, SlotInv, DirtyInv, OpInv, StoryInv, DiskInv;
      if !Enabled(Unpin(j)) {
        return Blocked;
      }
      CommittingIsAlone(log.start, bc.disk, bc.latest, phase, log.lh, ops, story);
      StoryUnpinTurn(log.start, bc.disk, bc.latest, phase.tail, log.lh, story);
      UnpinHeld(j, phase.tail);
      o := Ran;
    }

    method UnpinHeld(j: nat, t: nat)
      requires CacheInv() && HoldingInv() && phase == Unpinning(t) && t < |log.lh| && Uses(j, log.lh[t])
      requires log.lh[t] < |bc.disk| == |bc.latest| && bc.disk[log.lh[t]] == bc.latest[log.lh[t]]
      modifies this`phase, bc`bufs, bc`pins
      ensures CacheInv() && HoldingInv() && phase == Installing(t + 1)
    {
      hide Coherent, Linked, ByRelease, PinnedFor, SlotInv, DirtyInv, OpInv, Pinned;
      var b := slots[j].buf;
      ghost var bufs, pinned := bc.bufs, Pinned(phase, log.lh);
      SlotFacts(bufs, bc.refs, slots, lock, j);
      PinnedTail(t, log.lh);
      DistinctTail(t, log.lh);
      log.UnpinInstalled(b, pinned);
      BufferKeepsSlots(bufs, bc.refs, slots, lock, b, bc.bufs[b]);
      DirtyUnpinned(bc.disk, bc.latest, pinned, slots, dirty);
      phase := Installing(t + 1);
    }

    /** commit's lh.n = 0. */
    method ClearListTurn() returns (o: Outcome)
      requires Inv()
      modifies this`phase, log`lh
      ensures Inv() && before == old(before) && story == old(story) && o != Panicked
      ensures o == Blocked <==> !old(Enabled(ClearList))
      ensures o == Ran ==> slots == old(slots) && phase == Erasing && log.lh == []
    {
      hide Coherent, Linked, ByRelease, PinnedFor, SlotInv, DirtyInv, OpInv, StoryInv, DiskInv;
      if !Enabled(ClearList) {
        return Blocked;
      }
      CommittingIsAlone(log.start, bc.disk, bc.latest, phase, log.lh, ops, story);
      StoryClearTurn(log.start, bc.disk, bc.latest, log.lh, story);
      assert log.lh[|log.lh|..] == [];
      phase := Erasing;
      log.lh := [];
      o := Ran;
    }

    /** end_op's committing = 0. */
    method EndCommitTurn() returns (o: Outcome)
      requires Inv()
      modifies this`phase
      ensures Inv() && before == old(before) && story == old(story) && o != Panicked
      ensures o == Blocked <==> !old(Enabled(EndCommit))
      ensures o == Ran ==> slots == old(slots) && phase == Idle
    {
      hide Coherent, Linked, ByRelease, PinnedFor, SlotInv, DirtyInv, OpInv, StoryInv;
      if !Enabled(EndCommit) {
        return Blocked;
      }
      CommittingIsAlone(log.start, bc.disk, bc.latest, phase, log.lh, ops, story);
      ClosingIsEmpty(log.start, bc.disk, bc.latest, log.lh, ops, story);
      StoryDone(log.start, bc.disk, bc.latest, story);
      phase := Idle;
      o := Ran;
    }

    method Take(t: Turn) returns (o: Outcome)
      requires Inv()
      modifies this, log, bc
      ensures o != Panicked ==> Inv()
      ensures before == old(before) && Grows(old(story), story)
      ensures o == Blocked <==> !old(Enabled(t))
      ensures o == Panicked <==> old(Enabled(t)) && old(Panics(t))
    {
      hide Inv, InStage, MayWrite, Uses, Cached, Free;
      match t
      case Reference(i, pid, n) => o := ReferenceTurn(i, pid, n);
      case Acquire(i) => o := AcquireTurn(i);
      case Read(i) => o := ReadTurn(i);
      case Change(i, data) => o := ChangeTurn(i, data);
      case Record(i) => o := RecordTurn(i);
      case Release(i) => o := ReleaseTurn(i);
      case Drop(i) => o := DropTurn(i);
      case Begin(pid) => o := BeginTurn(pid);
      case End(pid) => o := EndTurn(pid);
      case CopyToLog(i, j) => o := CopyToLogTurn(i, j);
      case WriteHead(i) => o := WriteHeadTurn(i);
      case InstallHome(i, j) => o := InstallTurn(i, j);
      case Unpin(j) => o := UnpinTurn(j);
      case ClearList => o := ClearListTurn();
      case EndCommit => o := EndCommitTurn();
    }

    /**
     The run theorem.  Whatever turns the processes take, up to a panic of bget or
     log_write: the cache stays coherent with at most one buffer a block; exactly
     the logged blocks that are not installed yet are pinned; every bread returned
     what the last modification before it wrote; and a crash after any block write
     recovers to the effect of a prefix of the run in which no operation is half
     done, a later crash never to an earlier one.
     */
    method Run(turns: seq<Turn>) returns (o: Outcome)
      requires Inv()
      modifies this, log, bc
      ensures before == old(before) && Grows(old(story), story)
      ensures o != Panicked ==> Inv() && bc.Valid() && PinnedFor(bc.bufs, bc.pins, Pinned(phase, log.lh))
      ensures o != Panicked ==> AllSawLatest(log.start, story.first, story.hist)
      ensures o != Panicked ==> bc.writes == before + story.trace
      ensures o != Panicked ==> Crashes(story.trace, story.cuts, log.start, story.first, story.hist, story.cut)
      ensures o != Panicked && phase == Idle && ops == {} ==>
        RecoversTo(bc.disk, log.start, Replay(story.first, story.hist))
    {
      hide Coherent, Linked, ByRelease, PinnedFor, HoldingInv, StoryInv, DiskInv, Crashes, AllSawLatest, RecoversTo;
      o := Ran;
      for k := 0 to |turns|
        invariant Inv() && before == old(before) && Grows(old(story), story) && o != Panicked
      {
        o := Take(turns[k]);
        if o == Panicked {
          return;
        }
      }
      StoryFacts(log.start, bc.disk, bc.latest, phase, log.lh, ops, story);
      if phase == Idle && ops == {} {
        RestIsDurable();
      }
    }

    /** With no operation and no commit under way everything is durable. */
    lemma RestIsDurable()
      requires Inv() && phase == Idle && ops == {}
      ensures RecoversTo(bc.disk, log.start, Replay(story.first, story.hist))
    {
      hide Coherent, Linked, ByRelease, PinnedFor, SlotInv, RecoversTo, Crashes, AllSawLatest, Replay;
      NoneDirty(bc.disk, bc.latest, [], slots, dirty, log.start);
      SettledAll(bc.disk, bc.latest);
      ViewRecovers(bc.disk, log.start, Replay(story.first, story.hist));
    }
  }

  lemma StoryFacts(start: nat, disk: Disk, latest: Disk, phase: Phase, lh: seq<nat>, ops: set<nat>, st: Story)
    requires StoryInv(start, disk, latest, phase, lh, ops, st)
    ensures AllSawLatest(start, st.first, st.hist) && Crashes(st.trace, st.cuts, start, st.first, st.hist, st.cut)
  {
  }

  lemma CutInHistory(start: nat, disk: Disk, latest: Disk, phase: Phase, lh: seq<nat>, ops: set<nat>, st: Story)
    requires StoryInv(start, disk, latest, phase, lh, ops, st)
    ensures st.cut <= st.next <= |st.hist|
  {
  }

  lemma ErasingIsEmpty(start: nat, disk: Disk, latest: Disk, lh: seq<nat>, ops: set<nat>, st: Story)
    requires StoryInv(start, disk, latest, Erasing, lh, ops, st)
    ensures lh == []
  {
  }

  lemma ClosingIsEmpty(start: nat, disk: Disk, latest: Disk, lh: seq<nat>, ops: set<nat>, st: Story)
    requires StoryInv(start, disk, latest, Closing, lh, ops, st)
    ensures lh == []
  {
  }
}
