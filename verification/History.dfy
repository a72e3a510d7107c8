/**
 What the processes of a run did to the blocks, in order, and what the disk
 holds while one of them commits.
 */
module History {
  import opened Params
  import opened Blocks
  import opened Ring
  import opened Redo
  import opened LogLayer
  import opened BlockStore

  datatype Access =
    | Began(pid: nat)                             // begin_op admitted the process
    | Wrote(pid: nat, block: nat, data: Block)    // it modified a buffer
    | Saw(pid: nat, block: nat, data: Block)      // its bread gave it this buffer
    | Ended(pid: nat)                             // its end_op

  /** The plain array of blocks after the writes of a history. */
  function Replay(d: Disk, hist: seq<Access>): (r: Disk)
    ensures |r| == |d|
  {
    if hist == [] then d else
      var r := Replay(d, hist[..|hist| - 1]);
      match hist[|hist| - 1]
      case Wrote(_, n, data) => if n < |r| then r[n := data] else r
      case _ => r
  }

  /** The processes inside an operation at the end of a history. */
  function Open(hist: seq<Access>): set<nat> {
    if hist == [] then {} else
      var front := Open(hist[..|hist| - 1]);
      match hist[|hist| - 1]
      case Began(p) => front + {p}
      case Ended(p) => front - {p}
      case _ => front
  }

  ghost predicate SawLatest(start: nat, first: Disk, hist: seq<Access>, k: nat)
    requires k < |hist|
  {
    hist[k].Saw? && Home(start, |first|, hist[k].block) ==> hist[k].data == Replay(first, hist[..k])[hist[k].block]
  }

  /** Every bread returned what the last modification before it wrote. */
  ghost predicate AllSawLatest(start: nat, first: Disk, hist: seq<Access>) {
    forall k: nat :: k < |hist| ==> SawLatest(start, first, hist, k)
  }

  /** The disk recovers to the history cut where no operation is half done. */
  ghost predicate RecoversToCut(d: Disk, start: nat, first: Disk, hist: seq<Access>, c: nat) {
    c <= |hist| && Open(hist[..c]) == {} && RecoversTo(d, start, Replay(first, hist[..c]))
  }

  /** Every disk a crash could have left behind recovers to such a cut, and the cuts only move forward. */
  ghost predicate Crashes(writes: seq<Disk>, cuts: seq<nat>, start: nat, first: Disk, hist: seq<Access>, cut: nat) {
    && |cuts| == |writes|
    && (forall j: nat :: j < |writes| ==> RecoversToCut(writes[j], start, first, hist, cuts[j]))
    && (forall j, k :: 0 <= j <= k < |cuts| ==> cuts[j] <= cuts[k])
    && (forall j :: 0 <= j < |cuts| ==> cuts[j] <= cut)
  }

  lemma CutExtends(d: Disk, start: nat, first: Disk, hist: seq<Access>, c: nat, x: Access)
    requires RecoversToCut(d, start, first, hist, c)
    ensures RecoversToCut(d, start, first, hist + [x], c)
  {
    assert (hist + [x])[..c] == hist[..c];
  }

  lemma CrashesExtend(writes: seq<Disk>, cuts: seq<nat>, start: nat, first: Disk, hist: seq<Access>, cut: nat,
                      x: Access)
    requires Crashes(writes, cuts, start, first, hist, cut)
    ensures Crashes(writes, cuts, start, first, hist + [x], cut)
  {
    forall j: nat | j < |writes| ensures RecoversToCut(writes[j], start, first, hist + [x], cuts[j]) {
      CutExtends(writes[j], start, first, hist, cuts[j], x);
    }
  }

  lemma CrashesWrite(writes: seq<Disk>, cuts: seq<nat>, start: nat, first: Disk, hist: seq<Access>, cut: nat,
                     d: Disk, cut': nat)
    requires Crashes(writes, cuts, start, first, hist, cut) && cut <= cut' && RecoversToCut(d, start, first, hist, cut')
    ensures Crashes(writes + [d], cuts + [cut'], start, first, hist, cut')
  {
    forall j: nat | j < |writes + [d]|
      ensures RecoversToCut((writes + [d])[j], start, first, hist, (cuts + [cut'])[j])
    {
      assert j < |writes| ==> RecoversToCut(writes[j], start, first, hist, cuts[j]);
    }
  }

  lemma SawExtends(start: nat, first: Disk, hist: seq<Access>, x: Access)
    requires AllSawLatest(start, first, hist)
    requires x.Saw? && Home(start, |first|, x.block) ==> x.data == Replay(first, hist)[x.block]
    ensures AllSawLatest(start, first, hist + [x])
  {
    var hist' := hist + [x];
    forall k: nat | k < |hist'| ensures SawLatest(start, first, hist', k) {
      if k < |hist| {
        assert SawLatest(start, first, hist, k);
        assert hist'[..k] == hist[..k];
      } else {
        assert hist'[..k] == hist;
      }
    }
  }

  // The disk while a process commits.

  /** committing and how far commit has come. */
  datatype Phase =
    | Idle
    | Logging(tail: nat)      // write_log has written that many blocks
    | Installing(tail: nat)   // install_trans has installed and unpinned that many
    | Unpinning(tail: nat)    // it has also written the next one home
    | Erasing                 // lh.n is 0 in memory
    | Closing                 // and on disk; committing is still 1

  /** The blocks that are pinned: those logged, less those installed. */
  function Pinned(phase: Phase, lh: seq<nat>): seq<nat> {
    match phase
    case Idle => lh
    case Logging(_) => lh
    case Installing(t) => if t <= |lh| then lh[t..] else []
    case Unpinning(t) => if t <= |lh| then lh[t..] else []
    case _ => []
  }

  /** What commit starts from: disk d, latest contents src, blocks lh. */
  ghost predicate Source(start: nat, d: Disk, src: Disk, lh: seq<nat>) {
    && start + LOGBLOCKS < |d| == |src| && |lh| <= LOGBLOCKS && AllHome(lh, start, |d|)
    && d[start][0] == 0 && SameLog(d, src, start)
    && forall b: nat :: Home(start, |d|, b) && b !in lh ==> d[b] == src[b]
  }

  /** During commit the cache has the source's home blocks and the disk's log area. */
  ghost predicate Midway(start: nat, disk: Disk, latest: Disk, src: Disk) {
    start + LOGBLOCKS < |disk| && SameHome(latest, src, start) && SameLog(disk, latest, start)
  }

  /** `view` is what a crash recovers to. */
  ghost predicate DiskInv(start: nat, disk: Disk, latest: Disk, phase: Phase, lh: seq<nat>, list: seq<nat>,
                          d: Disk, src: Disk, view: Disk) {
    start + LOGBLOCKS < |disk| == |latest| &&
    match phase
    case Idle =>
      disk[start][0] == 0 && SameHome(disk, view, start)
    case Logging(t) =>
      && Source(start, d, src, lh) && lh != [] && t <= |lh| && list == lh
      && disk == Logged(d, src, start, lh, t) && Midway(start, disk, latest, src) && SameHome(d, view, start)
    case Installing(t) =>
      && Source(start, d, src, lh) && t <= |lh| && list == lh
      && disk == Installed(CommitPoint(d, src, start, lh), start, lh, t)
      && Midway(start, disk, latest, src) && SameHome(src, view, start)
    case Unpinning(t) =>
      && Source(start, d, src, lh) && t < |lh| && list == lh
      && disk == Installed(CommitPoint(d, src, start, lh), start, lh, t + 1)
      && Midway(start, disk, latest, src) && SameHome(src, view, start)
    case Erasing =>
      && Source(start, d, src, list) && lh == []
      && disk == Installed(CommitPoint(d, src, start, list), start, list, |list|)
      && Midway(start, disk, latest, src) && SameHome(src, view, start)
    case Closing =>
      disk[start][0] == 0 && SameHome(disk, view, start) && SameHome(latest, view, start) && lh == []
  }

  lemma ViewRecovers(d: Disk, start: nat, view: Disk)
    requires start + LOGBLOCKS < |d| && d[start][0] == 0 && SameHome(d, view, start)
    ensures RecoversTo(d, start, view)
  {
    UncommittedRecovers(d, start);
  }

  /** At every phase of a commit the disk recovers to the view. */
  lemma PhaseRecovers(start: nat, disk: Disk, latest: Disk, phase: Phase, lh: seq<nat>, list: seq<nat>,
                      d: Disk, src: Disk, view: Disk)
    requires DiskInv(start, disk, latest, phase, lh, list, d, src, view)
    ensures RecoversTo(disk, start, view)
  {
    hide Installed, Logged, CommitPoint, RecoversTo, LogOk, SameLog;
    match phase
    case Idle => ViewRecovers(disk, start, view);
    case Closing => ViewRecovers(disk, start, view);
    case Logging(t) =>
      CommitRecoversAt(d, src, start, lh, t);
      RecoversToSame(disk, start, d, view);
    case Installing(t) =>
      CommitRecoversAt(d, src, start, lh, |lh| + 1 + t);
      RecoversToSame(disk, start, src, view);
    case Unpinning(t) =>
      CommitRecoversAt(d, src, start, lh, |lh| + 2 + t);
      RecoversToSame(disk, start, src, view);
    case Erasing =>
      CommitRecoversAt(d, src, start, list, 2 * |list| + 1);
      RecoversToSame(disk, start, src, view);
  }

  /** end_op by the last operation, with blocks logged. */
  lemma StartLogging(start: nat, disk: Disk, latest: Disk, lh: seq<nat>, view: Disk)
    requires start + LOGBLOCKS < |disk| && Settled(disk, latest, lh) && AllHome(lh, start, |disk|)
      && 0 < |lh| <= LOGBLOCKS
    requires disk[start][0] == 0 && SameHome(disk, view, start)
    ensures DiskInv(start, disk, latest, Logging(0), lh, lh, disk, latest, view)
  {
    SettledSameLog(disk, latest, lh, start);
  }

  /** end_op by the last operation, with nothing logged. */
  lemma StartClosing(start: nat, disk: Disk, latest: Disk, list: seq<nat>, d: Disk, src: Disk, view: Disk)
    requires start + LOGBLOCKS < |disk| && Settled(disk, latest, []) && disk[start][0] == 0
      && SameHome(latest, view, start)
    ensures DiskInv(start, disk, latest, Closing, [], list, d, src, view)
  {
  }

  /** A turn of write_log. */
  lemma LogTurn(start: nat, disk: Disk, latest: Disk, t: nat, lh: seq<nat>, d: Disk, src: Disk, view: Disk)
    requires DiskInv(start, disk, latest, Logging(t), lh, lh, d, src, view) && t < |lh|
    ensures lh[t] < |latest|
    ensures var x := latest[lh[t]]; var n := start + 1 + t;
      DiskInv(start, disk[n := x], latest[n := x], Logging(t + 1), lh, lh, d, src, view)
  {
    assert Home(start, |d|, lh[t]);
  }

  /** write_head of the log's list: the commit point. */
  lemma HeadTurn(start: nat, disk: Disk, latest: Disk, lh: seq<nat>, d: Disk, src: Disk, view: Disk, view': Disk)
    requires DiskInv(start, disk, latest, Logging(|lh|), lh, lh, d, src, view) && SameHome(src, view', start)
    ensures var x := EncodeHead(latest[start], lh);
      DiskInv(start, disk[start := x], latest[start := x], Installing(0), lh, lh, d, src, view')
  {
    assert disk[start] == latest[start];
    InstalledNone(CommitPoint(d, src, start, lh), start, lh);
  }

  /** A turn of install_trans. */
  lemma InstallTurn(start: nat, disk: Disk, latest: Disk, t: nat, lh: seq<nat>, d: Disk, src: Disk, view: Disk)
    requires DiskInv(start, disk, latest, Installing(t), lh, lh, d, src, view) && t < |lh|
    ensures lh[t] < |latest| && start + 1 + t < |latest|
    ensures var x := latest[start + 1 + t]; var n := lh[t];
      DiskInv(start, disk[n := x], latest[n := x], Unpinning(t), lh, lh, d, src, view)
  {
    assert Home(start, |d|, lh[t]);
    var c := CommitPoint(d, src, start, lh);
    assert c[start + 1 + t] == src[lh[t]];
    assert disk[start + 1 + t] == c[start + 1 + t];
    InstallStep(c, c, start, lh, t);
  }

  /** The block install_trans is about to unpin is on disk. */
  lemma UnpinTurn(start: nat, disk: Disk, latest: Disk, t: nat, lh: seq<nat>, d: Disk, src: Disk, view: Disk)
    requires DiskInv(start, disk, latest, Unpinning(t), lh, lh, d, src, view)
    ensures DiskInv(start, disk, latest, Installing(t + 1), lh, lh, d, src, view)
    ensures t < |lh| && lh[t] < |disk| && disk[lh[t]] == latest[lh[t]]
  {
    assert Home(start, |d|, lh[t]);
    var c := CommitPoint(d, src, start, lh);
    assert c[start + 1 + t] == src[lh[t]];
    InstallStep(c, c, start, lh, t);
  }

  /** log.lh.n = 0. */
  lemma ClearTurn(start: nat, disk: Disk, latest: Disk, lh: seq<nat>, d: Disk, src: Disk, view: Disk)
    requires DiskInv(start, disk, latest, Installing(|lh|), lh, lh, d, src, view)
    ensures DiskInv(start, disk, latest, Erasing, [], lh, d, src, view)
  {
  }

  /** write_head of the empty list. */
  lemma EraseTurn(start: nat, disk: Disk, latest: Disk, list: seq<nat>, d: Disk, src: Disk, view: Disk)
    requires DiskInv(start, disk, latest, Erasing, [], list, d, src, view)
    ensures var x := EncodeHead(latest[start], []);
      DiskInv(start, disk[start := x], latest[start := x], Closing, [], list, d, src, view)
  {
    var c := CommitPoint(d, src, start, list);
    assert list[..|list|] == list;
    forall b: nat | Home(start, |d|, b) ensures disk[b] == src[b] {
      InstalledFromLog(c, src, start, list, |list|, b);
    }
  }

  // The story of a run.

  /**
   hist is everything so far and hist[..cut] what a crash now recovers to; while
   committing, hist[..next] is what commit makes durable.  trace holds the disks
   left behind by each block write and cuts the cut at each; d, src and list are
   the disk, contents and blocks that commit started from.
   */
  datatype Story = Story(first: Disk, hist: seq<Access>, cut: nat, next: nat, trace: seq<Disk>, cuts: seq<nat>,
                         d: Disk, src: Disk, list: seq<nat>)
  {
    ghost predicate Prefixes() {
      cut <= next <= |hist| && Open(hist[..cut]) == {} && Open(hist[..next]) == {}
    }

    /** What a crash recovers to. */
    ghost function View(): Disk {
      if cut <= |hist| then Replay(first, hist[..cut]) else first
    }

    ghost function NextView(): Disk {
      if next <= |hist| then Replay(first, hist[..next]) else first
    }
  }

  ghost predicate OpsInv(phase: Phase, lh: seq<nat>, ops: set<nat>, hist: seq<Access>) {
    && Open(hist) == ops
    && (phase != Idle ==> ops == {})
    && (phase == Idle && ops == {} ==> lh == [])
  }

  ghost predicate StoryInv(start: nat, disk: Disk, latest: Disk, phase: Phase, lh: seq<nat>, ops: set<nat>, st: Story) {
    && OpsInv(phase, lh, ops, st.hist) && st.Prefixes()
    && |st.first| == |disk| && SameHome(latest, Replay(st.first, st.hist), start)
    && (phase.Logging? ==> SameHome(st.src, st.NextView(), start))
    && AllSawLatest(start, st.first, st.hist)
    && Crashes(st.trace, st.cuts, start, st.first, st.hist, st.cut)
    && DiskInv(start, disk, latest, phase, lh, st.list, st.d, st.src, st.View())
  }

  /** One more access leaves the cuts where they are. */
  lemma PrefixesExtend(st: Story, x: Access)
    requires st.Prefixes()
    ensures var st' := st.(hist := st.hist + [x]);
      st'.Prefixes() && st'.View() == st.View() && st'.NextView() == st.NextView()
  {
    assert (st.hist + [x])[..st.cut] == st.hist[..st.cut];
    assert (st.hist + [x])[..st.next] == st.hist[..st.next];
  }

  lemma LastAccess(d: Disk, hist: seq<Access>, x: Access)
    ensures Replay(d, hist + [x]) ==
            if x.Wrote? && x.block < |d| then Replay(d, hist)[x.block := x.data] else Replay(d, hist)
    ensures Open(hist + [x]) ==
            if x.Began? then Open(hist) + {x.pid} else if x.Ended? then Open(hist) - {x.pid} else Open(hist)
  {
    assert (hist + [x])[..|hist|] == hist;
  }

  lemma StorySaw(start: nat, disk: Disk, latest: Disk, phase: Phase, lh: seq<nat>, ops: set<nat>, st: Story,
                 pid: nat, n: nat)
    requires StoryInv(start, disk, latest, phase, lh, ops, st) && n < |latest|
    ensures StoryInv(start, disk, latest, phase, lh, ops, st.(hist := st.hist + [Saw(pid, n, latest[n])]))
  {
    hide DiskInv, Crashes, AllSawLatest, Open, Replay;
    var x := Saw(pid, n, latest[n]);
    PrefixesExtend(st, x);
    LastAccess(st.first, st.hist, x);
    SawExtends(start, st.first, st.hist, x);
    CrashesExtend(st.trace, st.cuts, start, st.first, st.hist, st.cut, x);
  }

  lemma IdleAnyLatest(start: nat, disk: Disk, latest: Disk, lh: seq<nat>, list: seq<nat>, d: Disk, src: Disk,
                      view: Disk,
                      latest': Disk, lh': seq<nat>)
    requires DiskInv(start, disk, latest, Idle, lh, list, d, src, view) && |latest'| == |latest|
    ensures DiskInv(start, disk, latest', Idle, lh', list, d, src, view)
  {
  }

  lemma StoryWrote(start: nat, disk: Disk, latest: Disk, lh: seq<nat>, ops: set<nat>, st: Story,
                   pid: nat, n: nat, data: Block)
    requires StoryInv(start, disk, latest, Idle, lh, ops, st) && Home(start, |latest|, n)
    ensures StoryInv(start, disk, latest[n := data], Idle, lh, ops, st.(hist := st.hist + [Wrote(pid, n, data)]))
  {
    hide DiskInv, Crashes, AllSawLatest, Open, Replay;
    var x := Wrote(pid, n, data);
    PrefixesExtend(st, x);
    LastAccess(st.first, st.hist, x);
    SawExtends(start, st.first, st.hist, x);
    CrashesExtend(st.trace, st.cuts, start, st.first, st.hist, st.cut, x);
    IdleAnyLatest(start, disk, latest, lh, st.list, st.d, st.src, st.View(), latest[n := data], lh);
  }

  lemma StoryBegan(start: nat, disk: Disk, latest: Disk, lh: seq<nat>, ops: set<nat>, st: Story, pid: nat)
    requires StoryInv(start, disk, latest, Idle, lh, ops, st)
    ensures StoryInv(start, disk, latest, Idle, lh, ops + {pid}, st.(hist := st.hist + [Began(pid)]))
  {
    hide DiskInv, Crashes, AllSawLatest, Open, Replay;
    var x := Began(pid);
    PrefixesExtend(st, x);
    LastAccess(st.first, st.hist, x);
    SawExtends(start, st.first, st.hist, x);
    CrashesExtend(st.trace, st.cuts, start, st.first, st.hist, st.cut, x);
  }

  lemma StoryRecorded(start: nat, disk: Disk, latest: Disk, lh: seq<nat>, ops: set<nat>, st: Story, lh': seq<nat>)
    requires StoryInv(start, disk, latest, Idle, lh, ops, st) && ops != {}
    ensures StoryInv(start, disk, latest, Idle, lh', ops, st)
  {
  }

  lemma StoryEnded(start: nat, disk: Disk, latest: Disk, lh: seq<nat>, ops: set<nat>, st: Story, pid: nat)
    requires StoryInv(start, disk, latest, Idle, lh, ops, st) && ops - {pid} != {}
    ensures StoryInv(start, disk, latest, Idle, lh, ops - {pid}, st.(hist := st.hist + [Ended(pid)]))
  {
    hide DiskInv, Crashes, AllSawLatest, Open, Replay;
    var x := Ended(pid);
    PrefixesExtend(st, x);
    LastAccess(st.first, st.hist, x);
    SawExtends(start, st.first, st.hist, x);
    CrashesExtend(st.trace, st.cuts, start, st.first, st.hist, st.cut, x);
  }

  /** The last operation ends with blocks to commit. */
  lemma StoryCommits(start: nat, disk: Disk, latest: Disk, lh: seq<nat>, ops: set<nat>, st: Story, pid: nat)
    requires StoryInv(start, disk, latest, Idle, lh, ops, st) && ops - {pid} == {} && 0 < |lh| <= LOGBLOCKS
    requires Settled(disk, latest, lh) && AllHome(lh, start, |disk|)
    ensures var hist := st.hist + [Ended(pid)];
      StoryInv(start, disk, latest, Logging(0), lh, {},
               st.(hist := hist, next := |hist|, d := disk, src := latest, list := lh))
  {
    hide Crashes, AllSawLatest, Open, Replay, Settled, AllHome, Logged;
    var x := Ended(pid);
    var hist := st.hist + [x];
    PrefixesExtend(st, x);
    LastAccess(st.first, st.hist, x);
    SawExtends(start, st.first, st.hist, x);
    CrashesExtend(st.trace, st.cuts, start, st.first, st.hist, st.cut, x);
    assert hist[..|hist|] == hist;
    StartLogging(start, disk, latest, lh, st.View());
  }

  /** The last operation ends with nothing logged. */
  lemma StoryCloses(start: nat, disk: Disk, latest: Disk, ops: set<nat>, st: Story, pid: nat)
    requires StoryInv(start, disk, latest, Idle, [], ops, st) && ops - {pid} == {} && Settled(disk, latest, [])
    ensures var hist := st.hist + [Ended(pid)];
      StoryInv(start, disk, latest, Closing, [], {}, st.(hist := hist, next := |hist|, cut := |hist|))
  {
    hide Crashes, AllSawLatest, Open, Replay;
    var x := Ended(pid);
    var hist := st.hist + [x];
    LastAccess(st.first, st.hist, x);
    SawExtends(start, st.first, st.hist, x);
    CrashesExtend(st.trace, st.cuts, start, st.first, st.hist, st.cut, x);
    CrashesLater(st.trace, st.cuts, start, st.first, hist, st.cut, |hist|);
    assert hist[..|hist|] == hist;
  }

  lemma CrashesLater(writes: seq<Disk>, cuts: seq<nat>, start: nat, first: Disk, hist: seq<Access>, cut: nat, cut': nat)
    requires Crashes(writes, cuts, start, first, hist, cut) && cut <= cut'
    ensures Crashes(writes, cuts, start, first, hist, cut')
  {
  }

  /** A block write of the committer that keeps what a crash recovers to. */
  lemma StoryWrites(start: nat, disk: Disk, latest: Disk, phase: Phase, lh: seq<nat>, st: Story,
                    disk': Disk, latest': Disk, phase': Phase)
    requires StoryInv(start, disk, latest, phase, lh, {}, st) && phase' != Idle && (phase'.Logging? ==> phase.Logging?)
    requires DiskInv(start, disk', latest', phase', lh, st.list, st.d, st.src, st.View())
    requires |disk'| == |disk| && SameHome(latest', latest, start)
    ensures StoryInv(start, disk', latest', phase', lh, {},
      st.(trace := st.trace + [disk'], cuts := st.cuts + [st.cut]))
  {
    PhaseRecovers(start, disk', latest', phase', lh, st.list, st.d, st.src, st.View());
    hide DiskInv, Crashes, AllSawLatest, Open, Replay, RecoversTo;
    CrashesWrite(st.trace, st.cuts, start, st.first, st.hist, st.cut, disk', st.cut);
  }

  lemma StoryLogTurn(start: nat, disk: Disk, latest: Disk, t: nat, lh: seq<nat>, st: Story)
    requires StoryInv(start, disk, latest, Logging(t), lh, {}, st) && t < |lh|
    ensures lh[t] < |latest| == |disk| && start + 1 + t < |disk|
    ensures var x := latest[lh[t]]; var n := start + 1 + t;
      StoryInv(start, disk[n := x], latest[n := x], Logging(t + 1), lh, {},
               st.(trace := st.trace + [disk[n := x]], cuts := st.cuts + [st.cut]))
  {
    LogTurn(start, disk, latest, t, lh, st.d, st.src, st.View());
    hide Crashes, AllSawLatest, Open, Replay, Logged;
    var x, n := latest[lh[t]], start + 1 + t;
    StoryWrites(start, disk, latest, Logging(t), lh, st, disk[n := x], latest[n := x], Logging(t + 1));
  }

  lemma StoryHeadTurn(start: nat, disk: Disk, latest: Disk, lh: seq<nat>, st: Story)
    requires StoryInv(start, disk, latest, Logging(|lh|), lh, {}, st)
    ensures start < |latest| == |disk| && |lh| <= LOGBLOCKS
    ensures var x := EncodeHead(latest[start], lh);
      StoryInv(start, disk[start := x], latest[start := x], Installing(0), lh, {},
               st.(trace := st.trace + [disk[start := x]], cuts := st.cuts + [st.next], cut := st.next))
  {
    var x := EncodeHead(latest[start], lh);
    HeadTurn(start, disk, latest, lh, st.d, st.src, st.View(), st.NextView());
    PhaseRecovers(start, disk[start := x], latest[start := x], Installing(0), lh, lh, st.d, st.src, st.NextView());
    hide Crashes, AllSawLatest, Open, Replay, Installed, Logged, CommitPoint, RecoversTo;
    CrashesWrite(st.trace, st.cuts, start, st.first, st.hist, st.cut, disk[start := x], st.next);
  }

  lemma StoryInstallTurn(start: nat, disk: Disk, latest: Disk, t: nat, lh: seq<nat>, st: Story)
    requires StoryInv(start, disk, latest, Installing(t), lh, {}, st) && t < |lh|
    ensures lh[t] < |latest| == |disk| && start + 1 + t < |latest|
    ensures var x := latest[start + 1 + t]; var n := lh[t];
      StoryInv(start, disk[n := x], latest[n := x], Unpinning(t), lh, {},
               st.(trace := st.trace + [disk[n := x]], cuts := st.cuts + [st.cut]))
  {
    InstallTurn(start, disk, latest, t, lh, st.d, st.src, st.View());
    hide Crashes, AllSawLatest, Open, Replay, Installed, CommitPoint;
    var x, n := latest[start + 1 + t], lh[t];
    assert SameHome(latest[n := x], st.src, start) && SameHome(latest, st.src, start);
    StoryWrites(start, disk, latest, Installing(t), lh, st, disk[n := x], latest[n := x], Unpinning(t));
  }

  lemma StoryUnpinTurn(start: nat, disk: Disk, latest: Disk, t: nat, lh: seq<nat>, st: Story)
    requires StoryInv(start, disk, latest, Unpinning(t), lh, {}, st)
    ensures StoryInv(start, disk, latest, Installing(t + 1), lh, {}, st)
    ensures t < |lh| && lh[t] < |disk| == |latest| && disk[lh[t]] == latest[lh[t]]
  {
    UnpinTurn(start, disk, latest, t, lh, st.d, st.src, st.View());
    hide Crashes, AllSawLatest, Open, Replay, Installed, CommitPoint;
  }

  lemma StoryClearTurn(start: nat, disk: Disk, latest: Disk, lh: seq<nat>, st: Story)
    requires StoryInv(start, disk, latest, Installing(|lh|), lh, {}, st)
    ensures StoryInv(start, disk, latest, Erasing, [], {}, st)
  {
    hide Crashes, AllSawLatest, Open, Replay;
    ClearTurn(start, disk, latest, lh, st.d, st.src, st.View());
  }

  lemma StoryEraseTurn(start: nat, disk: Disk, latest: Disk, st: Story)
    requires StoryInv(start, disk, latest, Erasing, [], {}, st)
    ensures start < |latest| == |disk|
    ensures var x := EncodeHead(latest[start], []);
      StoryInv(start, disk[start := x], latest[start := x], Closing, [], {},
               st.(trace := st.trace + [disk[start := x]], cuts := st.cuts + [st.cut]))
  {
    EraseTurn(start, disk, latest, st.list, st.d, st.src, st.View());
    hide Crashes, AllSawLatest, Open, Replay, Installed, CommitPoint;
    var x := EncodeHead(latest[start], []);
    StoryWrites(start, disk, latest, Erasing, [], st, disk[start := x], latest[start := x], Closing);
  }

  lemma StoryDone(start: nat, disk: Disk, latest: Disk, st: Story)
    requires StoryInv(start, disk, latest, Closing, [], {}, st)
    ensures StoryInv(start, disk, latest, Idle, [], {}, st)
  {
  }

  /** Any number of crashed recoveries after a crash do not change the outcome. */
  lemma CrashesRecoverToCut(st: Story, start: nat, j: nat, ds: seq<Disk>)
    requires Crashes(st.trace, st.cuts, start, st.first, st.hist, st.cut) && j < |st.trace|
    requires |ds| > 0 && ds[0] == st.trace[j] && CrashHistory(ds, start)
    ensures RecoversToCut(ds[|ds| - 1], start, st.first, st.hist, st.cuts[j])
  {
    assert RecoversToCut(st.trace[j], start, st.first, st.hist, st.cuts[j]);
    RepeatedCrashes(ds, start);
  }
}
