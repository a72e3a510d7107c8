/**
 The turns of Kernel put together as the source puts them together: an operation
 that reads, modifies and logs its blocks and ends, and the commit after it.
 None of its turns blocks or panics, and its effect is durable.
 */
module Drive {
  import opened Wrappers
  import opened Params
  import opened Blocks
  import opened Ring
  import opened Bio
  import opened Redo
  import opened LogLayer
  import opened Sharing
  import opened History
  import opened BlockStore
  import opened KernelRun

  /** Slots 0 and 1 exist, and every slot but these two is empty. */
  predicate Mostly(slots: seq<Slot>) {
    |slots| >= 2 && forall j :: 2 <= j < |slots| ==> slots[j] == Empty
  }

  lemma {:induction false} RefHasSlot(slots: seq<Slot>, b: nat)
    requires Count(slots, b) > 0
    ensures exists j :: 0 <= j < |slots| && slots[j].Ref? && slots[j].buf == b
  {
    if One(slots[|slots| - 1], b) == 0 {
      var front := slots[..|slots| - 1];
      RefHasSlot(front, b);
      var j :| 0 <= j < |front| && front[j].Ref? && front[j].buf == b;
      assert slots[j] == front[j];
    }
  }

  /** With at most two buffers in use and room in the log, a buffer is free. */
  lemma RoomInCache(bufs: seq<Buf>, refs: seq<nat>, pins: seq<nat>, disk: Disk, latest: Disk, pinned: seq<nat>,
                    slots: seq<Slot>, lock: seq<Option<nat>>)
    requires Coherent(bufs, refs, pins, disk, latest) && PinnedFor(bufs, pins, pinned) && Distinct(pinned)
    requires SlotInv(bufs, refs, slots, lock) && Mostly(slots) && |pinned| + 2 < NBUF
    ensures Free(bufs)
  {
    var two := BufOf(slots[0]) + BufOf(slots[1]);
    forall b | b in HeldBeside(bufs, refs, pinned) ensures b in two {
      RefHasSlot(slots, b);
    }
    SubsetSize(HeldBeside(bufs, refs, pinned), two);
    FreeIffNotFull(bufs, refs, pins, disk, latest, pinned);
  }

  function BufOf(s: Slot): (r: set<nat>)
    ensures |r| <= 1
  {
    if s.Ref? then {s.buf} else {}
  }

  /** The lock of a buffer that only slot i refers to for its block is free. */
  lemma LockIsFree(bufs: seq<Buf>, refs: seq<nat>, slots: seq<Slot>, lock: seq<Option<nat>>, i: nat)
    requires SlotInv(bufs, refs, slots, lock) && i < |slots| && slots[i].Ref? && slots[i].stage == Waiting
    requires forall j :: 0 <= j < |slots| && j != i && slots[j].Ref? ==> slots[j].block != slots[i].block
    ensures slots[i].buf < |bufs| && bufs[slots[i].buf].holder == 0
  {
    var b := slots[i].buf;
    assert SlotOk(bufs, lock, slots[i], i);
    assert LockOk(bufs, slots, lock, b);
    if bufs[b].holder != 0 {
      HolderHasBlock(bufs, refs, slots, lock, b);
    }
  }

  lemma HolderHasBlock(bufs: seq<Buf>, refs: seq<nat>, slots: seq<Slot>, lock: seq<Option<nat>>, b: nat)
    requires SlotInv(bufs, refs, slots, lock) && b < NBUF && bufs[b].holder != 0
    ensures exists j :: 0 <= j < |slots| && Holds(slots[j]) && slots[j].buf == b && Tagged(bufs[b], slots[j].block)
  {
    assert LockOk(bufs, slots, lock, b);
    var j := lock[b].value;
    assert SlotOk(bufs, lock, slots[j], j);
  }

  /** bread by slot i: bget, acquiresleep and the disk read. */
  method TakeBuffer(k: Kernel, i: nat, pid: nat, n: nat)
    requires k.Inv() && Mostly(k.slots) && i < 2 && k.Enabled(Reference(i, pid, n))
    requires |Pinned(k.phase, k.log.lh)| + 2 < NBUF
    requires forall j :: 0 <= j < |k.slots| && k.slots[j].Ref? ==> k.slots[j].block != n
    modifies k`slots, k`lock, k`story, k.bc`bufs, k.bc`refs
    ensures k.Inv() && Took(old(k.slots), k.slots, i, pid, n) && Saws(old(k.story), k.story)
      && k.before == old(k.before)
  {
    hide Coherent, Linked, ByRelease, PinnedFor, SlotInv, DirtyInv, OpInv, StoryInv, DiskInv;
    PinnedDistinct(k.phase, k.log.lh);
    RoomInCache(k.bc.bufs, k.bc.refs, k.bc.pins, k.bc.disk, k.bc.latest, Pinned(k.phase, k.log.lh), k.slots, k.lock);
    var o := k.ReferenceTurn(i, pid, n);
    LockIsFree(k.bc.bufs, k.bc.refs, k.slots, k.lock, i);
    o := k.AcquireTurn(i);
    o := k.ReadTurn(i);
  }

  /** Slot i now holds block n, locked and read, for the process. */
  ghost predicate Took(slots: seq<Slot>, slots': seq<Slot>, i: nat, pid: nat, n: nat) {
    && i < |slots| == |slots'| && slots'[i].Ref?
    && slots' == slots[i := Ref(pid, slots'[i].buf, n, Filled)]
  }

  /** Only reads have been added to the story. */
  ghost predicate Saws(a: Story, b: Story) {
    && a.hist <= b.hist && b == a.(hist := b.hist)
    && Replay(b.first, b.hist) == Replay(a.first, a.hist)
  }

  lemma PinnedDistinct(phase: Phase, lh: seq<nat>)
    requires Distinct(lh)
    ensures Distinct(Pinned(phase, lh))
  {
  }

  /** brelse by slot i. */
  method GiveBack(k: Kernel, i: nat)
    requires k.Inv() && k.InStage(i, Filled)
    modifies k`slots, k.bc`bufs, k.bc`refs, k.bc`next, k.bc`prev, k.bc`ring, k.bc`released, k.bc`clock
    ensures k.Inv() && Emptied(old(k.slots), k.slots, i)
  {
    hide Kernel.Inv;
    var o := k.ReleaseTurn(i);
    o := k.DropTurn(i);
  }

  predicate AllEmpty(slots: seq<Slot>) { |slots| >= 2 && forall j :: 0 <= j < |slots| ==> slots[j] == Empty }

  /** A process inside an operation writes block n: bread, modify, log_write, brelse. */
  method WriteBlock(k: Kernel, pid: nat, n: nat, data: Block)
    requires k.Inv() && AllEmpty(k.slots) && pid in k.ops && pid != 0 && k.phase == Idle
    requires Home(k.log.start, |k.bc.disk|, n) && |k.log.lh| + 2 < NBUF
    modifies k`slots, k`lock, k`story, k`dirty, k.log`lh, k.bc
    ensures k.Inv() && AllEmpty(k.slots) && k.before == old(k.before)
    ensures k.log.lh == LogLayer.Record(old(k.log.lh), n) && |k.bc.disk| == |old(k.bc.disk)|
    ensures Effect(old(k.story), k.story, n, data)
  {
    hide Kernel.Inv;
    ghost var st := k.story;
    TakeBuffer(k, 0, pid, n);
    ChangeAndLog(k, pid, n, data, st);
    GiveBack(k, 0);
  }

  method ChangeAndLog(k: Kernel, pid: nat, n: nat, data: Block, ghost st: Story)
    requires k.Inv() && k.InStage(0, Filled) && k.slots[0].pid == pid && pid in k.ops && k.slots[0].block == n
    requires Home(k.log.start, |k.bc.disk|, n) && |k.log.lh| < LOGBLOCKS && Saws(st, k.story)
    modifies k`slots, k`story, k`dirty, k.log`lh, k.bc`bufs, k.bc`latest, k.bc`pins
    ensures k.Inv() && k.slots == old(k.slots) && k.before == old(k.before)
    ensures k.log.lh == LogLayer.Record(old(k.log.lh), n) && Effect(st, k.story, n, data)
  {
    hide Kernel.Inv, Effect, Saws;
    ghost var st1 := k.story;
    var o := k.ChangeTurn(0, data);
    EffectOf(st, st1, k.story, pid, n, data);
    o := k.RecordTurn(0);
  }

  /** The story goes on with reads and one write, and nothing has become durable. */
  ghost predicate Effect(a: Story, b: Story, n: nat, data: Block) {
    && a.hist <= b.hist && b == a.(hist := b.hist)
    && Replay(b.first, b.hist) ==
       if n < |a.first| then Replay(a.first, a.hist)[n := data] else Replay(a.first, a.hist)
  }

  lemma EffectOf(a: Story, b: Story, c: Story, pid: nat, n: nat, data: Block)
    requires Saws(a, b) && c == b.(hist := b.hist + [Wrote(pid, n, data)])
    ensures Effect(a, c, n, data)
  {
    LastAccess(b.first, b.hist, Wrote(pid, n, data));
  }

  /** The committer reads log block t + 1 and home block lh[t]. */
  method TakeBoth(k: Kernel, t: nat)
    requires k.Inv() && AllEmpty(k.slots) && k.committer != 0 && t < |k.log.lh| && |k.log.lh| + 2 < NBUF
    requires (k.phase.Logging? || k.phase.Installing?) && k.phase.tail == t
    modifies k`slots, k`lock, k`story, k.bc`bufs, k.bc`refs
    ensures k.Inv() && Mostly(k.slots) && k.before == old(k.before) && Saws(old(k.story), k.story)
    ensures k.InStage(0, Filled) && k.InStage(1, Filled)
    ensures k.Uses(0, k.log.start + 1 + t) && k.Uses(1, k.log.lh[t])
  {
    hide Kernel.Inv;
    PinnedShort(k.phase, k.log.lh);
    LogSizes(k);
    ghost var st := k.story;
    TakeBuffer(k, 0, k.committer, k.log.start + 1 + t);
    ghost var st1 := k.story;
    TakeBuffer(k, 1, k.committer, k.log.lh[t]);
    SawsTrans(st, st1, k.story);
  }

  lemma LogSizes(k: Kernel)
    requires k.Inv()
    ensures k.log.start + LOGBLOCKS < |k.bc.disk| && |k.log.lh| <= LOGBLOCKS && k.log.bc == k.bc
    ensures AllHome(k.log.lh, k.log.start, |k.bc.disk|)
  {
  }

  lemma SawsTrans(a: Story, b: Story, c: Story)
    requires Saws(a, b) && Saws(b, c)
    ensures Saws(a, c)
  {
  }

  lemma PinnedShort(phase: Phase, lh: seq<nat>)
    ensures |Pinned(phase, lh)| <= |lh|
  {
  }

  /** Only reads and the commit's own block writes have been added to the story. */
  ghost predicate Commits(a: Story, b: Story) {
    && a.hist <= b.hist && b.first == a.first && a.trace <= b.trace
    && Replay(b.first, b.hist) == Replay(a.first, a.hist)
  }

  /** A turn of write_log. */
  method DriveLog(k: Kernel, t: nat)
    requires k.Inv() && AllEmpty(k.slots) && k.committer != 0 && t < |k.log.lh| && |k.log.lh| + 2 < NBUF
    requires k.phase == Logging(t)
    modifies k`slots, k`lock, k`story, k`phase, k.bc
    ensures k.Inv() && AllEmpty(k.slots) && k.before == old(k.before) && k.phase == Logging(t + 1)
    ensures Commits(old(k.story), k.story)
  {
    hide Kernel.Inv;
    TakeBoth(k, t);
    var o := k.CopyToLogTurn(0, 1);
    GiveBack(k, 1);
    GiveBack(k, 0);
  }

  /** A turn of install_trans. */
  method DriveInstall(k: Kernel, t: nat)
    requires k.Inv() && AllEmpty(k.slots) && k.committer != 0 && t < |k.log.lh| && |k.log.lh| + 2 < NBUF
    requires k.phase == Installing(t)
    modifies k`slots, k`lock, k`story, k`phase, k.bc
    ensures k.Inv() && AllEmpty(k.slots) && k.before == old(k.before) && k.phase == Installing(t + 1)
    ensures Commits(old(k.story), k.story)
  {
    hide Kernel.Inv;
    TakeBoth(k, t);
    InstallBoth(k, t);
    GiveBack(k, 0);
    GiveBack(k, 1);
  }

  /** The copy home and the bunpin, with both buffers held. */
  method InstallBoth(k: Kernel, t: nat)
    requires k.Inv() && k.phase == Installing(t) && t < |k.log.lh|
    requires k.Uses(0, k.log.start + 1 + t) && k.Uses(1, k.log.lh[t])
    modifies k`story, k`phase, k.bc
    ensures k.Inv() && k.before == old(k.before) && k.phase == Installing(t + 1)
    ensures Commits(old(k.story), k.story)
  {
    hide Kernel.Inv;
    var o := k.InstallTurn(0, 1);
    o := k.UnpinTurn(1);
  }

  /** write_head. */
  method DriveHead(k: Kernel)
    requires k.Inv() && AllEmpty(k.slots) && k.committer != 0 && |k.log.lh| + 2 < NBUF
    requires k.phase == Logging(|k.log.lh|) || k.phase == Erasing
    modifies k`slots, k`lock, k`story, k`phase, k.bc
    ensures k.Inv() && AllEmpty(k.slots) && k.before == old(k.before) && k.phase == AfterHead(old(k.phase))
    ensures Commits(old(k.story), k.story)
  {
    hide Kernel.Inv;
    PinnedShort(k.phase, k.log.lh);
    LogSizes(k);
    TakeBuffer(k, 0, k.committer, k.log.start);
    var o := k.WriteHeadTurn(0);
    GiveBack(k, 0);
  }

  lemma CommitsTrans(a: Story, b: Story, c: Story)
    requires Commits(a, b) && Commits(b, c)
    ensures Commits(a, c)
  {
  }

  /** write_log, write_head and install_trans. */
  method DriveLoops(k: Kernel, ghost st: Story)
    requires k.Inv() && AllEmpty(k.slots) && k.committer != 0 && |k.log.lh| + 2 < NBUF
    requires k.phase == Logging(0) && st == k.story
    modifies k`slots, k`lock, k`story, k`phase, k.bc
    ensures k.Inv() && AllEmpty(k.slots) && k.before == old(k.before) && k.phase == Installing(|k.log.lh|)
    ensures Commits(st, k.story)
  {
    hide Kernel.Inv, Commits, AllEmpty;
    CommitsSame(st);
    for t := 0 to |k.log.lh|
      invariant k.Inv() && AllEmpty(k.slots) && k.before == old(k.before) && k.phase == Logging(t)
      invariant Commits(st, k.story)
    {
      ghost var st1 := k.story;
      DriveLog(k, t);
      CommitsTrans(st, st1, k.story);
    }
    ghost var st2 := k.story;
    DriveHead(k);
    CommitsTrans(st, st2, k.story);
    for t := 0 to |k.log.lh|
      invariant k.Inv() && AllEmpty(k.slots) && k.before == old(k.before) && k.phase == Installing(t)
      invariant Commits(st, k.story)
    {
      ghost var st1 := k.story;
      DriveInstall(k, t);
      CommitsTrans(st, st1, k.story);
    }
  }

  /** The whole commit, from end_op's committing = 1 to committing = 0: no turn of it waits or panics. */
  method DriveCommit(k: Kernel)
    requires k.Inv() && AllEmpty(k.slots) && k.committer != 0 && |k.log.lh| + 2 < NBUF
    requires k.phase == if k.log.lh == [] then Closing else Logging(0)
    modifies k`slots, k`lock, k`story, k`phase, k.bc, k.log`lh
    ensures k.Inv() && AllEmpty(k.slots) && k.before == old(k.before) && k.phase == Idle
    ensures Commits(old(k.story), k.story)
  {
    hide Kernel.Inv, Commits, AllEmpty;
    ghost var st := k.story;
    CommitsSame(st);
    if k.log.lh != [] {
      DriveLoops(k, st);
      var o := k.ClearListTurn();
      ghost var st1 := k.story;
      DriveHead(k);
      CommitsTrans(st, st1, k.story);
    }
    var o := k.EndCommitTurn();
  }

  lemma CommitsSame(a: Story)
    ensures Commits(a, a)
  {
  }

  /** The writes of an operation, one after the other. */
  method DriveWrites(k: Kernel, pid: nat, ws: seq<(nat, Block)>)
    requires k.Inv() && AllEmpty(k.slots) && pid in k.ops && pid != 0 && k.phase == Idle && k.log.lh == []
    requires Accepted(Transaction(ws), k.log.start, |k.bc.disk|)
    modifies k`slots, k`lock, k`story, k`dirty, k.log`lh, k.bc
    ensures k.Inv() && AllEmpty(k.slots) && k.before == old(k.before) && |k.log.lh| <= |ws|
    ensures Writes(old(k.story), k.story, ws)
  {
    hide Kernel.Inv, Writes, Effect, AllEmpty;
    ghost var st := k.story;
    NoWrites(st);
    assert ws[..0] == [];
    SizesKept(k);
    for i := 0 to |ws|
      invariant k.Inv() && AllEmpty(k.slots) && k.before == old(k.before) && |k.log.lh| <= i
      invariant |k.bc.disk| == |old(k.bc.disk)| && Writes(st, k.story, ws[..i])
    {
      ghost var st1 := k.story;
      WriteBlock(k, pid, ws[i].0, ws[i].1);
      SizesKept(k);
      OneMore(st, st1, k.story, ws, i);
    }
    assert ws[..|ws|] == ws;
  }

  /** The story goes on with these writes, among reads. */
  ghost predicate Writes(a: Story, b: Story, ws: seq<(nat, Block)>) {
    a.hist <= b.hist && b == a.(hist := b.hist) && Replay(b.first, b.hist) == Apply(Replay(a.first, a.hist), ws)
  }

  lemma NoWrites(a: Story)
    ensures Writes(a, a, [])
  {
  }

  lemma OneMore(a: Story, b: Story, c: Story, ws: seq<(nat, Block)>, i: nat)
    requires i < |ws| && Writes(a, b, ws[..i]) && Effect(b, c, ws[i].0, ws[i].1)
    ensures Writes(a, c, ws[..i + 1])
  {
    assert ws[..i + 1][..i] == ws[..i];
  }

  lemma SizesKept(k: Kernel)
    requires k.Inv()
    ensures |k.story.first| == |k.bc.disk|
  {
  }

  /**
   A whole operation on a kernel at rest: every one of its turns and of its
   commit's runs, and afterwards the disk recovers to what was there before with
   the operation's writes applied.
   */
  method DriveOperation(k: Kernel, pid: nat, ws: seq<(nat, Block)>)
    requires k.Inv() && AllEmpty(k.slots) && k.ops == {} && k.phase == Idle && pid != 0
    requires Accepted(Transaction(ws), k.log.start, |k.bc.disk|)
    modifies k, k.log, k.bc
    ensures k.Inv() && AllEmpty(k.slots) && k.ops == {} && k.phase == Idle && k.before == old(k.before)
    ensures k.story.first == old(k.story).first && old(k.story).hist <= k.story.hist
    ensures Replay(k.story.first, k.story.hist) == Apply(Replay(old(k.story).first, old(k.story).hist), ws)
    ensures RecoversTo(k.bc.disk, k.log.start, Apply(Replay(old(k.story).first, old(k.story).hist), ws))
  {
    hide Kernel.Inv, AllEmpty;
    ghost var st := k.story;
    IdleIsEmpty(k);
    var o := k.BeginTurn(pid);
    ghost var st1 := k.story;
    DriveWrites(k, pid, ws);
    ghost var st2 := k.story;
    NoDirty(k, pid);
    o := k.EndTurn(pid);
    ghost var st3 := k.story;
    DriveCommit(k);
    k.RestIsDurable();
    Whole(st, st1, st2, st3, k.story, pid, ws);
  }

  lemma IdleIsEmpty(k: Kernel)
    requires k.Inv() && k.phase == Idle && k.ops == {}
    ensures k.log.lh == [] && k.log.outstanding == 0
  {
  }

  lemma NoDirty(k: Kernel, pid: nat)
    requires AllEmpty(k.slots)
    ensures Clean(k.slots, pid)
  {
  }

  lemma Whole(a: Story, b: Story, c: Story, d: Story, e: Story, pid: nat, ws: seq<(nat, Block)>)
    requires b.first == a.first && b.hist == a.hist + [Began(pid)] && Writes(b, c, ws)
    requires d.first == c.first && d.hist == c.hist + [Ended(pid)] && Commits(d, e)
    ensures e.first == a.first && a.hist <= e.hist
    ensures Replay(e.first, e.hist) == Apply(Replay(a.first, a.hist), ws)
  {
    hide Replay;
    LastAccess(a.first, a.hist, Began(pid));
    LastAccess(c.first, c.hist, Ended(pid));
  }
}
