/**
 The on-disk log format and what its states mean, as functions of the disk:
 the header block at `start`, then LOGBLOCKS log blocks, everything else home.
 */
module Redo {
  import opened Params
  import opened Blocks

  predicate Home(start: nat, size: nat, b: nat) {
    b < size && !(start <= b <= start + LOGBLOCKS)
  }

  /** read_head's view of a header block. */
  function Entries(head: Block): seq<nat>
    requires head[0] <= LOGBLOCKS
  {
    head[1..1 + head[0]]
  }

  /** write_head's update: the count and that many entries, the rest of the block as it was. */
  function EncodeHead(head: Block, lh: seq<nat>): (b: Block)
    requires |lh| <= LOGBLOCKS
  {
    [|lh|] + lh + head[1 + |lh|..]
  }

  lemma HeadRoundTrip(head: Block, lh: seq<nat>)
    requires |lh| <= LOGBLOCKS
    ensures EncodeHead(head, lh)[0] <= LOGBLOCKS
    ensures Entries(EncodeHead(head, lh)) == lh
  {
    var b := EncodeHead(head, lh);
    forall i | 0 <= i < |lh| ensures b[1 + i] == lh[i] {}
  }

  predicate AllHome(lh: seq<nat>, start: nat, size: nat) {
    forall i :: 0 <= i < |lh| ==> Home(start, size, lh[i])
  }

  /** The disk holds a header that recovery can follow. */
  predicate LogOk(d: Disk, start: nat) {
    && start + LOGBLOCKS < |d|
    && d[start][0] <= LOGBLOCKS
    && AllHome(Entries(d[start]), start, |d|)
  }

  ghost predicate SameHome(d: Disk, e: Disk, start: nat) {
    |d| == |e| && forall b: nat :: Home(start, |d|, b) ==> d[b] == e[b]
  }

  predicate SameLog(d: Disk, e: Disk, start: nat)
    requires start + LOGBLOCKS < |d|
  {
    |d| == |e| && forall b :: start <= b <= start + LOGBLOCKS ==> d[b] == e[b]
  }

  /** The first k log blocks copied to their home locations. */
  function Installed(d: Disk, start: nat, lh: seq<nat>, k: nat): (r: Disk)
    requires start + LOGBLOCKS < |d| && |lh| <= LOGBLOCKS && AllHome(lh, start, |d|) && k <= |lh|
    ensures SameLog(d, r, start)
  {
    if k == 0 then d else
      Installed(d, start, lh, k - 1)[lh[k - 1] := d[start + k]]
  }

  function ClearHead(d: Disk, start: nat): Disk
    requires start < |d|
  {
    d[start := EncodeHead(d[start], [])]
  }

  /** What a completed recovery makes of a disk. */
  function Recovered(d: Disk, start: nat): Disk
    requires LogOk(d, start)
  {
    ClearHead(Installed(d, start, Entries(d[start]), d[start][0]), start)
  }

  lemma {:induction false} InstalledElsewhere(d: Disk, start: nat, lh: seq<nat>, k: nat, b: nat)
    requires start + LOGBLOCKS < |d| && |lh| <= LOGBLOCKS && AllHome(lh, start, |d|) && k <= |lh|
    requires b < |d| && b !in lh[..k]
    ensures Installed(d, start, lh, k)[b] == d[b]
  {
    if k > 0 {
      assert lh[..k][k - 1] == lh[k - 1];
      assert lh[..k - 1] == lh[..k][..k - 1];
      InstalledElsewhere(d, start, lh, k - 1, b);
    }
  }

  /** Installing reads only the log area, so two disks with one log agree wherever it writes. */
  lemma {:induction false} InstalledAgree(d: Disk, e: Disk, start: nat, lh: seq<nat>, k: nat, b: nat)
    requires start + LOGBLOCKS < |d| && |lh| <= LOGBLOCKS && AllHome(lh, start, |d|) && k <= |lh|
    requires SameLog(d, e, start) && b < |d| && (b in lh[..k] || d[b] == e[b])
    ensures Installed(d, start, lh, k)[b] == Installed(e, start, lh, k)[b]
  {
    if k > 0 && b != lh[k - 1] {
      assert b in lh[..k] ==> b in lh[..k - 1];
      InstalledAgree(d, e, start, lh, k - 1, b);
    }
  }

  /** Redoing a partly installed log gives the same result: recovery can be interrupted anywhere. */
  lemma ReinstallAfterPartial(d: Disk, start: nat, k: nat)
    requires LogOk(d, start) && k <= d[start][0]
    ensures LogOk(Installed(d, start, Entries(d[start]), k), start)
    ensures Recovered(Installed(d, start, Entries(d[start]), k), start) == Recovered(d, start)
  {
    var lh := Entries(d[start]);
    var e := Installed(d, start, lh, k);
    assert e[start] == d[start];
    forall b | 0 <= b < |d|
      ensures Installed(e, start, lh, |lh|)[b] == Installed(d, start, lh, |lh|)[b]
    {
      assert lh[..|lh|] == lh;
      if b !in lh {
        assert b !in lh[..k];
        InstalledElsewhere(d, start, lh, k, b);
      }
      InstalledAgree(e, d, start, lh, |lh|, b);
    }
    assert Installed(e, start, lh, |lh|) == Installed(d, start, lh, |lh|);
  }

  lemma ClearedRecoversToItself(d: Disk, start: nat)
    requires LogOk(d, start)
    ensures LogOk(Recovered(d, start), start)
    ensures Recovered(Recovered(d, start), start) == Recovered(d, start)
  {
    var r := Recovered(d, start);
    HeadRoundTrip(d[start], []);
    assert EncodeHead(r[start], []) == r[start];
    assert Entries(r[start]) == [];
  }

  /** d' is a disk that an interrupted or completed recovery of d can leave behind. */
  ghost predicate RecoveryReaches(d: Disk, start: nat, d': Disk) {
    && LogOk(d, start)
    && (|| d' == Recovered(d, start)
        || exists k :: 0 <= k <= d[start][0] && d' == Installed(d, start, Entries(d[start]), k))
  }

  lemma RecoveryStepKeepsOutcome(d: Disk, start: nat, d': Disk)
    requires RecoveryReaches(d, start, d')
    ensures LogOk(d', start) && Recovered(d', start) == Recovered(d, start)
  {
    if d' == Recovered(d, start) {
      ClearedRecoversToItself(d, start);
    } else {
      var k :| 0 <= k <= d[start][0] && d' == Installed(d, start, Entries(d[start]), k);
      ReinstallAfterPartial(d, start, k);
    }
  }

  /** ds is a history of crashes: each disk was left behind by a recovery of the one before. */
  ghost predicate CrashHistory(ds: seq<Disk>, start: nat) {
    forall i :: 0 <= i < |ds| - 1 ==> RecoveryReaches(ds[i], start, ds[i + 1])
  }

  /** However often recovery itself crashes, the recovery that completes gives the same disk. */
  lemma {:induction false} RepeatedCrashes(ds: seq<Disk>, start: nat)
    requires |ds| > 0 && LogOk(ds[0], start) && CrashHistory(ds, start)
    ensures LogOk(ds[|ds| - 1], start)
    ensures Recovered(ds[|ds| - 1], start) == Recovered(ds[0], start)
  {
    if |ds| > 1 {
      var front := ds[..|ds| - 1];
      RepeatedCrashes(front, start);
      RecoveryStepKeepsOutcome(front[|front| - 1], start, ds[|ds| - 1]);
    }
  }

  /** write_log: the first k logged blocks' cached contents in the log blocks. */
  function Logged(d: Disk, src: Disk, start: nat, lh: seq<nat>, k: nat): (r: Disk)
    requires start + LOGBLOCKS < |d| == |src| && |lh| <= LOGBLOCKS && AllHome(lh, start, |d|) && k <= |lh|
    ensures SameHome(d, r, start) && r[start] == d[start]
    ensures forall j :: 0 <= j < k ==> r[start + 1 + j] == src[lh[j]]
  {
    if k == 0 then d else
      Logged(d, src, start, lh, k - 1)[start + k := src[lh[k - 1]]]
  }

  /** The disks write_log leaves behind, one per block write. */
  ghost function LogTrace(d: Disk, src: Disk, start: nat, lh: seq<nat>, k: nat): seq<Disk>
    requires start + LOGBLOCKS < |d| == |src| && |lh| <= LOGBLOCKS && AllHome(lh, start, |d|) && k <= |lh|
  {
    if k == 0 then [] else LogTrace(d, src, start, lh, k - 1) + [Logged(d, src, start, lh, k)]
  }

  /** The disks install_trans leaves behind, one per block write. */
  ghost function InstallTrace(d: Disk, start: nat, lh: seq<nat>, k: nat): seq<Disk>
    requires start + LOGBLOCKS < |d| && |lh| <= LOGBLOCKS && AllHome(lh, start, |d|) && k <= |lh|
  {
    if k == 0 then [] else InstallTrace(d, start, lh, k - 1) + [Installed(d, start, lh, k)]
  }

  lemma {:induction false} LogTraceAt(d: Disk, src: Disk, start: nat, lh: seq<nat>, k: nat)
    requires start + LOGBLOCKS < |d| == |src| && |lh| <= LOGBLOCKS && AllHome(lh, start, |d|) && k <= |lh|
    ensures |LogTrace(d, src, start, lh, k)| == k
    ensures forall i :: 0 <= i < k ==> LogTrace(d, src, start, lh, k)[i] == Logged(d, src, start, lh, i + 1)
  {
    if k > 0 { LogTraceAt(d, src, start, lh, k - 1); }
  }

  lemma {:induction false} InstallTraceAt(d: Disk, start: nat, lh: seq<nat>, k: nat)
    requires start + LOGBLOCKS < |d| && |lh| <= LOGBLOCKS && AllHome(lh, start, |d|) && k <= |lh|
    ensures |InstallTrace(d, start, lh, k)| == k
    ensures forall i :: 0 <= i < k ==> InstallTrace(d, start, lh, k)[i] == Installed(d, start, lh, i + 1)
  {
    if k > 0 { InstallTraceAt(d, start, lh, k - 1); }
  }

  lemma InstallStep(d: Disk, c: Disk, start: nat, lh: seq<nat>, k: nat)
    requires start + LOGBLOCKS < |d| && |lh| <= LOGBLOCKS && AllHome(lh, start, |d|) && k < |lh|
    requires SameLog(d, c, start)
    ensures var x := Installed(c, start, lh, k)[start + 1 + k];
            && Installed(d, start, lh, k + 1) == Installed(d, start, lh, k)[lh[k] := x]
            && Installed(c, start, lh, k + 1) == Installed(c, start, lh, k)[lh[k] := x]
  {
  }

  /** The disk at the commit point: log blocks and header written, home blocks still old. */
  function CommitPoint(d: Disk, src: Disk, start: nat, lh: seq<nat>): (r: Disk)
    requires start + LOGBLOCKS < |d| == |src| && |lh| <= LOGBLOCKS && AllHome(lh, start, |d|)
    ensures |r| == |d| && r[start] == EncodeHead(d[start], lh) && SameHome(d, r, start)
    ensures forall j :: 0 <= j < |lh| ==> r[start + 1 + j] == src[lh[j]]
  {
    Logged(d, src, start, lh, |lh|)[start := EncodeHead(d[start], lh)]
  }

  /** The disk after j of the 2n + 2 block writes of a commit of lh. */
  function CommitDisk(d: Disk, src: Disk, start: nat, lh: seq<nat>, j: nat): (r: Disk)
    requires start + LOGBLOCKS < |d| == |src| && |lh| <= LOGBLOCKS && AllHome(lh, start, |d|)
    requires j <= 2 * |lh| + 2
    ensures |r| == |d|
  {
    if j <= |lh| then Logged(d, src, start, lh, j) else
    var committed := CommitPoint(d, src, start, lh);
    if j <= 2 * |lh| + 1 then Installed(committed, start, lh, j - |lh| - 1)
    else ClearHead(Installed(committed, start, lh, |lh|), start)
  }

  /** Home contents once every logged block has its cached contents. */
  ghost predicate Updated(d: Disk, src: Disk, start: nat, lh: seq<nat>, r: Disk) {
    && |r| == |d| == |src|
    && forall b: nat :: Home(start, |d|, b) ==> r[b] == if b in lh then src[b] else d[b]
  }

  lemma {:induction false} InstalledFromLog(d: Disk, src: Disk, start: nat, lh: seq<nat>, k: nat, b: nat)
    requires start + LOGBLOCKS < |d| == |src| && |lh| <= LOGBLOCKS && AllHome(lh, start, |d|) && k <= |lh|
    requires forall j :: 0 <= j < |lh| ==> d[start + 1 + j] == src[lh[j]]
    requires b < |d|
    ensures Installed(d, start, lh, k)[b] == if b in lh[..k] then src[b] else d[b]
  {
    if k > 0 {
      InstalledFromLog(d, src, start, lh, k - 1, b);
      assert d[start + 1 + (k - 1)] == src[lh[k - 1]];
      assert b in lh[..k] <==> b in lh[..k - 1] || b == lh[k - 1];
    }
  }

  /**
   Crash atomicity: stop a commit after any of its block writes and recover.
   Every home block is old, or every logged one is new; new exactly from the
   header write on.
   */
  lemma CommitIsAtomic(d: Disk, src: Disk, start: nat, lh: seq<nat>, j: nat)
    requires start + LOGBLOCKS < |d| == |src| && |lh| <= LOGBLOCKS && AllHome(lh, start, |d|)
    requires d[start][0] == 0 && j <= 2 * |lh| + 2
    ensures LogOk(CommitDisk(d, src, start, lh, j), start)
    ensures j <= |lh| ==> SameHome(Recovered(CommitDisk(d, src, start, lh, j), start), d, start)
    ensures j > |lh| ==> Updated(d, src, start, lh, Recovered(CommitDisk(d, src, start, lh, j), start))
  {
    if j <= |lh| {
      UncommittedRecovers(Logged(d, src, start, lh, j), start);
    } else {
      CommitPointRecovers(d, src, start, lh);
      AfterCommitPoint(d, src, start, lh, j);
    }
  }

  lemma AfterCommitPoint(d: Disk, src: Disk, start: nat, lh: seq<nat>, j: nat)
    requires start + LOGBLOCKS < |d| == |src| && |lh| <= LOGBLOCKS && AllHome(lh, start, |d|)
    requires |lh| < j <= 2 * |lh| + 2
    requires LogOk(CommitPoint(d, src, start, lh), start) && Entries(CommitPoint(d, src, start, lh)[start]) == lh
    ensures LogOk(CommitDisk(d, src, start, lh, j), start)
    ensures Recovered(CommitDisk(d, src, start, lh, j), start) == Recovered(CommitPoint(d, src, start, lh), start)
  {
    hide Installed, LogOk, CommitPoint;
    var c := CommitPoint(d, src, start, lh);
    EntriesCount(c, start);
    if j <= 2 * |lh| + 1 {
      ReinstallAfterPartial(c, start, j - |lh| - 1);
    } else {
      ClearedRecoversToItself(c, start);
    }
  }

  lemma EntriesCount(d: Disk, start: nat)
    requires LogOk(d, start)
    ensures |Entries(d[start])| == d[start][0] <= LOGBLOCKS
  {
  }

  lemma UncommittedRecovers(d: Disk, start: nat)
    requires start + LOGBLOCKS < |d| && d[start][0] == 0
    ensures LogOk(d, start) && SameHome(Recovered(d, start), d, start)
  {
    assert Entries(d[start]) == [];
  }

  lemma CommitPointRecovers(d: Disk, src: Disk, start: nat, lh: seq<nat>)
    requires start + LOGBLOCKS < |d| == |src| && |lh| <= LOGBLOCKS && AllHome(lh, start, |d|)
    ensures var c := CommitPoint(d, src, start, lh);
            LogOk(c, start) && Entries(c[start]) == lh && Updated(d, src, start, lh, Recovered(c, start))
  {
    HeadRoundTrip(d[start], lh);
    CommittedRecovers(CommitPoint(d, src, start, lh), src, start, lh);
  }

  /** A disk whose header lists lh and whose log blocks hold src's contents recovers to them. */
  lemma CommittedRecovers(c: Disk, src: Disk, start: nat, lh: seq<nat>)
    requires LogOk(c, start) && Entries(c[start]) == lh && |c| == |src|
    requires forall j :: 0 <= j < |lh| ==> c[start + 1 + j] == src[lh[j]]
    ensures Updated(c, src, start, lh, Recovered(c, start))
  {
    assert lh[..|lh|] == lh;
    forall b: nat | Home(start, |c|, b)
      ensures Recovered(c, start)[b] == if b in lh then src[b] else c[b]
    {
      InstalledFromLog(c, src, start, lh, |lh|, b);
    }
  }

  /** The disks a commit leaves behind, one per block write. */
  ghost function CommitTrace(d: Disk, src: Disk, start: nat, lh: seq<nat>): seq<Disk>
    requires start + LOGBLOCKS < |d| == |src| && |lh| <= LOGBLOCKS && AllHome(lh, start, |d|)
  {
    if lh == [] then [] else
      var c := CommitPoint(d, src, start, lh);
      LogTrace(d, src, start, lh, |lh|) + [c] + InstallTrace(c, start, lh, |lh|)
      + [ClearHead(Installed(c, start, lh, |lh|), start)]
  }

  lemma CommitTraceAt(d: Disk, src: Disk, start: nat, lh: seq<nat>, j: nat)
    requires start + LOGBLOCKS < |d| == |src| && |lh| <= LOGBLOCKS && AllHome(lh, start, |d|) && lh != []
    requires 1 <= j <= 2 * |lh| + 2
    ensures |CommitTrace(d, src, start, lh)| == 2 * |lh| + 2
    ensures CommitTrace(d, src, start, lh)[j - 1] == CommitDisk(d, src, start, lh, j)
  {
    hide Installed, Logged, LogTrace, InstallTrace, SameHome, SameLog;
    LogTraceAt(d, src, start, lh, |lh|);
    InstallTraceAt(CommitPoint(d, src, start, lh), start, lh, |lh|);
    InstalledNone(CommitPoint(d, src, start, lh), start, lh);
  }

  lemma InstalledNone(d: Disk, start: nat, lh: seq<nat>)
    requires start + LOGBLOCKS < |d| && |lh| <= LOGBLOCKS && AllHome(lh, start, |d|)
    ensures Installed(d, start, lh, 0) == d
  {
  }

  /** The disks recovery leaves behind, one per block write. */
  ghost function RecoveryTrace(d: Disk, start: nat): seq<Disk>
    requires LogOk(d, start)
  {
    InstallTrace(d, start, Entries(d[start]), d[start][0]) + [Recovered(d, start)]
  }

  lemma RecoveryTraceReaches(d: Disk, start: nat, i: nat)
    requires LogOk(d, start) && i < |RecoveryTrace(d, start)|
    ensures RecoveryReaches(d, start, RecoveryTrace(d, start)[i])
  {
    InstallTraceAt(d, start, Entries(d[start]), d[start][0]);
    if i < d[start][0] {
      assert RecoveryTrace(d, start)[i] == Installed(d, start, Entries(d[start]), i + 1);
    }
  }

  /** Logging and installing cached contents leaves the cached contents as they are. */
  lemma CommitKeepsSource(src: Disk, start: nat, lh: seq<nat>)
    requires start + LOGBLOCKS < |src| && |lh| <= LOGBLOCKS && AllHome(lh, start, |src|)
    ensures SameHome(Installed(CommitPoint(src, src, start, lh), start, lh, |lh|), src, start)
  {
    var c := CommitPoint(src, src, start, lh);
    forall b: nat | Home(start, |src|, b) ensures Installed(c, start, lh, |lh|)[b] == src[b] {
      InstalledFromLog(c, src, start, lh, |lh|, b);
    }
  }
}
