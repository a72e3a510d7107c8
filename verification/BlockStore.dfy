/**
 The whole block layer from the outside: cache, log, commit and recovery
 together behave like a plain array of blocks whose transactions are atomic.
 */
module BlockStore {
  import opened Params
  import opened Blocks
  import opened Ring
  import opened Bio
  import opened Redo
  import opened LogLayer

  /** A system call's use of the block layer. */
  datatype Request = Get(blockno: nat) | Transaction(writes: seq<(nat, Block)>)

  predicate Accepted(r: Request, start: nat, size: nat) {
    match r
    case Get(b) => Home(start, size, b)
    case Transaction(ws) => |ws| <= MAXOPBLOCKS && forall i :: 0 <= i < |ws| ==> Home(start, size, ws[i].0)
  }

  /** The simple machine: an array of blocks. */
  function Apply(d: Disk, ws: seq<(nat, Block)>): (r: Disk)
    ensures |r| == |d|
  {
    if ws == [] then d else
      var w := ws[|ws| - 1];
      var r := Apply(d, ws[..|ws| - 1]);
      if w.0 < |r| then r[w.0 := w.1] else r
  }

  function After(d: Disk, script: seq<Request>): (r: Disk)
    ensures |r| == |d|
  {
    if script == [] then d else
      var before := After(d, script[..|script| - 1]);
      match script[|script| - 1]
      case Get(_) => before
      case Transaction(ws) => Apply(before, ws)
  }

  /** The answers the simple machine gives to a script's Gets. */
  function Replies(d: Disk, script: seq<Request>): seq<Block> {
    if script == [] then [] else
      var front := script[..|script| - 1];
      match script[|script| - 1]
      case Get(b) => Replies(d, front) + (if b < |d| then [After(d, front)[b]] else [])
      case Transaction(_) => Replies(d, front)
  }

  ghost predicate RecoversTo(d: Disk, start: nat, view: Disk) {
    LogOk(d, start) && SameHome(Recovered(d, start), view, start)
  }

  /** A crash before `cut` writes recovers to `before`, a later one to `after`. */
  ghost predicate SwitchesAt(trace: seq<Disk>, start: nat, before: Disk, after: Disk, cut: nat) {
    && cut <= |trace|
    && (forall j :: 0 <= j < cut ==> RecoversTo(trace[j], start, before))
    && (forall j :: cut <= j < |trace| ==> RecoversTo(trace[j], start, after))
  }

  lemma CommitSwitches(d: Disk, src: Disk, start: nat, lh: seq<nat>)
    requires start + LOGBLOCKS < |d| == |src| && |lh| <= LOGBLOCKS && AllHome(lh, start, |d|) && d[start][0] == 0
    requires forall b: nat :: Home(start, |d|, b) && b !in lh ==> d[b] == src[b]
    ensures SwitchesAt(CommitTrace(d, src, start, lh), start, d, src, |lh|)
  {
    if lh != [] { CommitSwitchesSome(d, src, start, lh); }
  }

  lemma CommitSwitchesSome(d: Disk, src: Disk, start: nat, lh: seq<nat>)
    requires start + LOGBLOCKS < |d| == |src| && |lh| <= LOGBLOCKS && AllHome(lh, start, |d|) && d[start][0] == 0
    requires lh != [] && forall b: nat :: Home(start, |d|, b) && b !in lh ==> d[b] == src[b]
    ensures SwitchesAt(CommitTrace(d, src, start, lh), start, d, src, |lh|)
  {
    hide RecoversTo, CommitTrace, CommitDisk, Home, AllHome;
    var trace := CommitTrace(d, src, start, lh);
    CommitTraceAt(d, src, start, lh, 1);
    forall j | 0 <= j < |lh| ensures RecoversTo(trace[j], start, d) {
      CommitTraceAt(d, src, start, lh, j + 1);
      CommitRecoversAt(d, src, start, lh, j + 1);
    }
    forall j | |lh| <= j < |trace| ensures RecoversTo(trace[j], start, src) {
      CommitTraceAt(d, src, start, lh, j + 1);
      CommitRecoversAt(d, src, start, lh, j + 1);
    }
  }

  lemma CommitRecoversAt(d: Disk, src: Disk, start: nat, lh: seq<nat>, j: nat)
    requires start + LOGBLOCKS < |d| == |src| && |lh| <= LOGBLOCKS && AllHome(lh, start, |d|) && d[start][0] == 0
    requires forall b: nat :: Home(start, |d|, b) && b !in lh ==> d[b] == src[b]
    requires j <= 2 * |lh| + 2
    ensures j <= |lh| ==> RecoversTo(CommitDisk(d, src, start, lh, j), start, d)
    ensures j > |lh| ==> RecoversTo(CommitDisk(d, src, start, lh, j), start, src)
  {
    hide CommitDisk, LogOk, Recovered;
    CommitIsAtomic(d, src, start, lh, j);
  }

  ghost predicate Durable(trace: seq<Disk>, start: nat, d: Disk, script: seq<Request>) {
    forall j :: 0 <= j < |trace| ==> RecoversToPrefix(trace[j], start, d, script)
  }

  ghost predicate RecoversToPrefix(t: Disk, start: nat, d: Disk, script: seq<Request>) {
    exists k :: 0 <= k <= |script| && RecoversTo(t, start, After(d, script[..k]))
  }

  /** Between requests: nothing logged, nothing held, disk up to date and its header empty. */
  ghost predicate AtRest(log: Log)
    reads log, log.bc
  {
    && log.lh == [] && log.outstanding == 0 && log.Steady() && Quiet(log.bc.bufs, log.bc.refs)
    && log.bc.disk == log.bc.latest && log.bc.disk[log.start][0] == 0
  }

  /** begin_op, the writes, end_op by the only process in a transaction. */
  method RunTransaction(log: Log, ws: seq<(nat, Block)>)
    requires AtRest(log) && Accepted(Transaction(ws), log.start, |log.bc.disk|)
    modifies log, log.bc
    ensures AtRest(log) && SameHome(log.bc.latest, Apply(old(log.bc.latest), ws), log.start)
    ensures |old(log.bc.writes)| <= |log.bc.writes| && log.bc.writes[..|old(log.bc.writes)|] == old(log.bc.writes)
    ensures exists cut :: SwitchesAt(log.bc.writes[|old(log.bc.writes)|..], log.start, old(log.bc.disk),
                                     Apply(old(log.bc.latest), ws), cut)
  {
    hide Coherent, Linked, ByRelease, PinnedFor, Quiet, RecoversTo, LogOk, OthersKept, HeldBeside, Free, Clear, Settled;
    ghost var d, w := log.bc.disk, log.bc.writes;
    var admitted := log.BeginOp();
    for i := 0 to |ws|
      invariant log.outstanding == 1 && log.Steady() && Quiet(log.bc.bufs, log.bc.refs) && |log.lh| <= i
      invariant log.bc.disk == d && log.bc.writes == w && log.bc.latest == Apply(d, ws[..i])
      invariant forall b: nat :: Home(log.start, |d|, b) && b !in log.lh ==> d[b] == log.bc.latest[b]
    {
      assert ws[..i + 1][..i] == ws[..i];
      StoreAlone(log, ws[i].0, ws[i].1);
    }
    assert ws[..|ws|] == ws;
    var last := log.EndOp();
    ghost var src, lh, bufs, refs := log.bc.latest, log.lh, log.bc.bufs, log.bc.refs;
    log.QuietIsReady();
    NoneHeldBeside(bufs, refs, lh);
    var ok := log.Commit();
    StaysQuiet(bufs, refs, log.bc.bufs, log.bc.refs, log.bc.pins, log.bc.disk, log.bc.latest);
    CommitSwitches(d, src, log.start, lh);
    assert log.bc.writes[|w|..] == CommitTrace(d, src, log.start, lh);
  }

  lemma NoneHeldBeside(bufs: seq<Buf>, refs: seq<nat>, lh: seq<nat>)
    requires Quiet(bufs, refs)
    ensures HeldBeside(bufs, refs, lh) == {}
  {
  }

  /** With nothing held and room in the log, a write reaches no panic. */
  method StoreAlone(log: Log, blockno: nat, data: Block)
    requires log.Steady() && Quiet(log.bc.bufs, log.bc.refs) && log.outstanding > 0 && |log.lh| < LOGBLOCKS
    requires Home(log.start, |log.bc.disk|, blockno)
    modifies log.bc, log`lh
    ensures log.Steady() && Quiet(log.bc.bufs, log.bc.refs) && log.lh == Record(old(log.lh), blockno)
    ensures log.bc.disk == old(log.bc.disk) && log.bc.writes == old(log.bc.writes) && blockno < |old(log.bc.latest)|
    ensures log.bc.latest == old(log.bc.latest)[blockno := data]
  {
    hide Coherent, Linked, ByRelease, PinnedFor, OthersKept, HeldBeside, Free;
    ghost var bufs, refs := log.bc.bufs, log.bc.refs;
    NoneHeldBeside(bufs, refs, log.lh);
    FreeIffNotFull(bufs, refs, log.bc.pins, log.bc.disk, log.bc.latest, log.lh);
    var r := log.Store(blockno, data);
    StaysQuiet(bufs, refs, log.bc.bufs, log.bc.refs, log.bc.pins, log.bc.disk, log.bc.latest);
  }

  /** With nothing held and room in the log, a read reaches no panic. */
  method FetchAlone(log: Log, blockno: nat) returns (data: Block)
    requires log.Steady() && Quiet(log.bc.bufs, log.bc.refs) && |log.lh| < LOGBLOCKS && blockno < |log.bc.disk|
    modifies log.bc
    ensures log.Steady() && Quiet(log.bc.bufs, log.bc.refs) && log.bc.disk == old(log.bc.disk)
    ensures log.bc.writes == old(log.bc.writes) && log.bc.latest == old(log.bc.latest)
    ensures data == log.bc.latest[blockno]
  {
    hide Coherent, Linked, ByRelease, PinnedFor, OthersKept, HeldBeside, Free;
    ghost var bufs, refs := log.bc.bufs, log.bc.refs;
    NoneHeldBeside(bufs, refs, log.lh);
    FreeIffNotFull(bufs, refs, log.bc.pins, log.bc.disk, log.bc.latest, log.lh);
    var r := log.Fetch(blockno);
    data := r.value;
    StaysQuiet(bufs, refs, log.bc.bufs, log.bc.refs, log.bc.pins, log.bc.disk, log.bc.latest);
  }

  lemma {:induction false} ApplyKeepsSameHome(d: Disk, e: Disk, ws: seq<(nat, Block)>, start: nat)
    requires SameHome(d, e, start)
    ensures SameHome(Apply(d, ws), Apply(e, ws), start)
  {
    if ws != [] {
      ApplyKeepsSameHome(d, e, ws[..|ws| - 1], start);
    }
  }

  lemma RecoversToSame(t: Disk, start: nat, view: Disk, view': Disk)
    requires RecoversTo(t, start, view) && SameHome(view, view', start)
    ensures RecoversTo(t, start, view')
  {
  }

  /** The disks of a transaction that is request i of the script recover to a prefix of it. */
  lemma TransactionIsDurable(trace: seq<Disk>, start: nat, d: Disk, script: seq<Request>, i: nat, latest: Disk,
                             cut: nat)
    requires i < |script| && script[i].Transaction? && SameHome(latest, After(d, script[..i]), start)
    requires SwitchesAt(trace, start, latest, Apply(latest, script[i].writes), cut)
    ensures Durable(trace, start, d, script)
    ensures SameHome(Apply(latest, script[i].writes), After(d, script[..i + 1]), start)
  {
    ApplyKeepsSameHome(latest, After(d, script[..i]), script[i].writes, start);
    assert script[..i + 1][..i] == script[..i];
    forall j | 0 <= j < |trace| ensures RecoversToPrefix(trace[j], start, d, script) {
      if j < cut {
        RecoversToSame(trace[j], start, latest, After(d, script[..i]));
      } else {
        RecoversToSame(trace[j], start, Apply(latest, script[i].writes), After(d, script[..i + 1]));
      }
    }
  }

  lemma DurableConcat(a: seq<Disk>, b: seq<Disk>, start: nat, d: Disk, script: seq<Request>)
    requires Durable(a, start, d, script) && Durable(b, start, d, script)
    ensures Durable(a + b, start, d, script)
  {
    forall j | 0 <= j < |a + b| ensures RecoversToPrefix((a + b)[j], start, d, script) {
      assert (a + b)[j] == if j < |a| then a[j] else b[j - |a|];
    }
  }

  /**
   The block layer refines the array of blocks: every answer is the array's
   answer, and a crash after any block write recovers to the array after some
   whole number of requests, after the last one once Serve has returned.
   */
  method Serve(log: Log, script: seq<Request>) returns (replies: seq<Block>)
    requires AtRest(log)
    requires forall i :: 0 <= i < |script| ==> Accepted(script[i], log.start, |log.bc.disk|)
    modifies log, log.bc
    ensures AtRest(log)
    ensures replies == Replies(old(log.bc.latest), script)
    ensures SameHome(log.bc.latest, After(old(log.bc.latest), script), log.start)
    ensures RecoversTo(log.bc.disk, log.start, After(old(log.bc.latest), script))
    ensures |old(log.bc.writes)| <= |log.bc.writes| && log.bc.writes[..|old(log.bc.writes)|] == old(log.bc.writes)
    ensures Durable(log.bc.writes[|old(log.bc.writes)|..], log.start, old(log.bc.latest), script)
  {
    hide Coherent, Linked, ByRelease, PinnedFor, Quiet, RecoversTo, LogOk, SwitchesAt, Durable;
    ghost var d, w := log.bc.latest, log.bc.writes;
    ghost var trace: seq<Disk> := [];
    replies := [];
    NothingIsDurable(log.start, d, script);
    for i := 0 to |script|
      invariant AtRest(log) && |log.bc.disk| == |d|
      invariant SameHome(log.bc.latest, After(d, script[..i]), log.start)
      invariant replies == Replies(d, script[..i])
      invariant log.bc.writes == w + trace && Durable(trace, log.start, d, script)
    {
      assert script[..i + 1][..i] == script[..i];
      match script[i] {
        case Get(b) =>
          var data := FetchAlone(log, b);
          replies := replies + [data];
        case Transaction(ws) =>
          ghost var latest, w1 := log.bc.latest, log.bc.writes;
          RunTransaction(log, ws);
          ghost var t := log.bc.writes[|w1|..];
          ghost var cut :| SwitchesAt(t, log.start, latest, Apply(latest, ws), cut);
          TransactionIsDurable(t, log.start, d, script, i, latest, cut);
          DurableConcat(trace, t, log.start, d, script);
          trace := trace + t;
      }
    }
    assert script[..|script|] == script;
    assert log.bc.writes[|w|..] == trace;
    UncommittedRecovers(log.bc.disk, log.start);
    RestRecovers(log.bc.disk, log.start, After(d, script));
  }

  lemma NothingIsDurable(start: nat, d: Disk, script: seq<Request>)
    ensures Durable([], start, d, script)
  {
  }

  lemma RestRecovers(d: Disk, start: nat, view: Disk)
    requires LogOk(d, start) && SameHome(Recovered(d, start), d, start) && SameHome(d, view, start)
    ensures RecoversTo(d, start, view)
  {
  }

  /** binit and initlog: a kernel booted on any disk with a readable log recovers it and is at rest. */
  method Boot(d: Disk, start: nat) returns (log: Log)
    requires LogOk(d, start)
    ensures fresh(log) && fresh(log.bc) && AtRest(log) && log.start == start
    ensures log.bc.latest == Recovered(d, start)
    ensures log.bc.writes == RecoveryTrace(d, start)
  {
    var bc := new Bcache(d);
    log := new Log(bc, start);
    log.RecoverFromLog();
  }

  /**
   A crash after any block write of a served script, then any number of crashed
   recoveries, then a recovery that completes: the outcome is the array after a
   prefix of the script.
   */
  lemma CrashesRecoverToPrefix(t: Disk, start: nat, d: Disk, script: seq<Request>, ds: seq<Disk>)
    requires RecoversToPrefix(t, start, d, script)
    requires |ds| > 0 && ds[0] == t && CrashHistory(ds, start)
    ensures RecoversToPrefix(ds[|ds| - 1], start, d, script)
  {
    RepeatedCrashes(ds, start);
    var k :| 0 <= k <= |script| && RecoversTo(t, start, After(d, script[..k]));
    assert RecoversTo(ds[|ds| - 1], start, After(d, script[..k]));
  }

  /** A process reads a block that no one holds and keeps its buffer. */
  method ReadAndHold(log: Log, blockno: nat, pid: nat)
    requires log.Steady() && Free(log.bc.bufs) && blockno < |log.bc.disk| && blockno !in log.lh && pid != 0
    requires forall i :: 0 <= i < NBUF && log.bc.refs[i] > 0 ==> log.bc.bufs[i].blockno != blockno
    modifies log.bc`bufs, log.bc`refs
    ensures log.Steady()
    ensures |HeldBeside(log.bc.bufs, log.bc.refs, log.lh)| == |old(HeldBeside(log.bc.bufs, log.bc.refs, log.lh))| + 1
    ensures forall i :: 0 <= i < NBUF && log.bc.refs[i] > 0 ==>
      log.bc.bufs[i].blockno == blockno
        || (old(log.bc.refs)[i] > 0 && log.bc.bufs[i].blockno == old(log.bc.bufs)[i].blockno)
  {
    hide Coherent, Linked, ByRelease, PinnedFor;
    ghost var bufs, refs := log.bc.bufs, log.bc.refs;
    LockedIsHeld(bufs, refs, log.bc.pins, log.bc.disk, log.bc.latest);
    UnloggedIsUnpinned(bufs, log.bc.pins, log.lh, blockno);
    var r := log.bc.Bread(blockno, pid);
    RetagUnpinned(bufs, log.bc.pins, log.lh, r.value, log.bc.bufs[r.value]);
    assert HeldBeside(log.bc.bufs, log.bc.refs, log.lh) == HeldBeside(bufs, refs, log.lh) + {r.value};
  }

  lemma LockedIsHeld(bufs: seq<Buf>, refs: seq<nat>, pins: seq<nat>, disk: Disk, latest: Disk)
    requires Coherent(bufs, refs, pins, disk, latest)
    ensures |bufs| == |refs| == NBUF
    ensures forall i :: 0 <= i < NBUF && bufs[i].holder != 0 ==> refs[i] > 0
    ensures forall i :: 0 <= i < NBUF && refs[i] > 0 ==> bufs[i].dev == ROOTDEV && bufs[i].refcnt > 0
  {
  }

  /** Whoever holds a buffer holds one of these blocks. */
  ghost predicate HoldOnly(bufs: seq<Buf>, refs: seq<nat>, blocks: seq<nat>) {
    |bufs| == |refs| && forall i :: 0 <= i < |bufs| && refs[i] > 0 ==> bufs[i].blockno in blocks
  }

  /** The two lists of a failing run: blocks that operations log and blocks that readers hold. */
  ghost predicate FillCache(logged: seq<nat>, held: seq<nat>, start: nat, size: nat) {
    && |logged| > 0 && |logged| + |held| == NBUF && Distinct(logged + held)
    && AllHome(logged, start, size) && AllHome(held, start, size)
  }

  /** Three operations log the blocks. */
  method LogBlocks(log: Log, logged: seq<nat>, data: Block)
    requires AtRest(log) && |logged| <= LOGBLOCKS && Distinct(logged) && AllHome(logged, log.start, |log.bc.disk|)
    modifies log, log.bc
    ensures log.Steady() && Quiet(log.bc.bufs, log.bc.refs) && log.lh == logged && log.outstanding == 3
    ensures log.bc.disk == old(log.bc.disk)
  {
    hide Coherent, Linked, ByRelease, PinnedFor, Quiet;
    for k := 0 to 3
      invariant log.outstanding == k && log.lh == [] && log.Steady() && Quiet(log.bc.bufs, log.bc.refs)
      invariant log.bc.disk == old(log.bc.disk)
    {
      var admitted := log.BeginOp();
    }
    for i := 0 to |logged|
      invariant log.outstanding == 3 && log.Steady() && Quiet(log.bc.bufs, log.bc.refs) && log.lh == logged[..i]
      invariant log.bc.disk == old(log.bc.disk)
    {
      StoreAlone(log, logged[i], data);
    }
  }

  /** Readers take the other blocks, as fileread does outside any operation. */
  method HoldBlocks(log: Log, held: seq<nat>, pid: nat)
    requires log.Steady() && Quiet(log.bc.bufs, log.bc.refs) && pid != 0
    requires FillCache(log.lh, held, log.start, |log.bc.disk|)
    modifies log.bc`bufs, log.bc`refs
    ensures log.Steady() && HoldOnly(log.bc.bufs, log.bc.refs, held)
    ensures |HeldBeside(log.bc.bufs, log.bc.refs, log.lh)| == |held|
  {
    hide Coherent, Linked, ByRelease, PinnedFor, HeldBeside, Free;
    NoneHeldBeside(log.bc.bufs, log.bc.refs, log.lh);
    for j := 0 to |held|
      invariant log.Steady() && HoldOnly(log.bc.bufs, log.bc.refs, held[..j])
      invariant |HeldBeside(log.bc.bufs, log.bc.refs, log.lh)| == j
    {
      FreeIffNotFull(log.bc.bufs, log.bc.refs, log.bc.pins, log.bc.disk, log.bc.latest, log.lh);
      NotBefore(log.lh, held, j);
      ReadAndHold(log, held[j], pid);
      assert held[..j + 1] == held[..j] + [held[j]];
    }
    assert held[..|held|] == held;
  }

  lemma NotBefore(logged: seq<nat>, held: seq<nat>, j: nat)
    requires Distinct(logged + held) && j < |held|
    ensures held[j] !in logged && held[j] !in held[..j]
  {
    var all := logged + held;
    assert all[|logged| + j] == held[j];
    forall i | 0 <= i < |logged| ensures logged[i] != held[j] {
      assert all[i] == logged[i];
    }
    forall i | 0 <= i < j ensures held[i] != held[j] {
      assert all[|logged| + i] == held[i];
    }
  }

  lemma ReadersLeaveCommitReady(log: Log, held: seq<nat>)
    requires log.Steady() && HoldOnly(log.bc.bufs, log.bc.refs, held) && Settled(log.bc.disk, log.bc.latest, log.lh)
    requires FillCache(log.lh, held, log.start, |log.bc.disk|)
    ensures log.Ready(log.lh)
  {
    LockedIsHeld(log.bc.bufs, log.bc.refs, log.bc.pins, log.bc.disk, log.bc.latest);
    forall n | n in held ensures n !in log.lh {
      var j :| 0 <= j < |held| && held[j] == n;
      NotBefore(log.lh, held, j);
    }
  }

  /**
   The run in which commit dies in bget.  begin_op admits three operations, which
   may log up to 30 blocks between them, and NBUF equals LOGBLOCKS: with n blocks
   logged and the other 30 - n buffers held by readers, end_op's commit has no
   buffer for its first log block.  30 logged blocks need no reader, 29 need one.
   */
  method FullCachePanics(log: Log, logged: seq<nat>, held: seq<nat>, data: Block, pid: nat) returns (ok: bool)
    requires AtRest(log) && FillCache(logged, held, log.start, |log.bc.disk|) && pid != 0
    modifies log, log.bc
    ensures !ok && log.bc.disk == old(log.bc.disk)
  {
    hide Coherent, Linked, ByRelease, PinnedFor, HeldBeside, Free;
    DistinctPart(logged, held);
    LogBlocks(log, logged, data);
    QuietIsSettled(log.bc.bufs, log.bc.refs, log.bc.pins, log.bc.disk, log.bc.latest, log.lh);
    HoldBlocks(log, held, pid);
    ReadersLeaveCommitReady(log, held);
    for k := 0 to 3
      invariant log.outstanding == 3 - k
      modifies log`outstanding
    {
      var last := log.EndOp();
    }
    ok := log.Commit();
  }

  lemma DistinctPart(a: seq<nat>, b: seq<nat>)
    requires Distinct(a + b)
    ensures Distinct(a)
  {
    forall i, j | 0 <= i < j < |a| ensures a[i] != a[j] {
      assert (a + b)[i] == a[i] && (a + b)[j] == a[j];
    }
  }
}
