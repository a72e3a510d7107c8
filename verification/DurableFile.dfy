/**
 filewrite on top of the log: every chunk is one operation, what it changed is
 what it logged, and so a crash leaves each file with a whole number of chunks.
 */
module DurableFile {
  import opened Params
  import opened Inodes
  import opened FileBytes
  import opened Fs
  import opened FileLayer
  import opened OnDisk
  import B = Blocks
  import Redo
  import LL = LogLayer
  import BS = BlockStore

  /** The writes of a transaction are the blocks of disk e. */
  predicate BlocksOf(ws: seq<(nat, B.Block)>, e: B.Disk) {
    forall k :: 0 <= k < |ws| ==> ws[k].0 < |e| && ws[k].1 == e[ws[k].0]
  }

  predicate Writes(ws: seq<(nat, B.Block)>, n: nat) {
    exists k :: 0 <= k < |ws| && ws[k].0 == n
  }

  lemma {:induction false} ApplyAt(d: B.Disk, ws: seq<(nat, B.Block)>, e: B.Disk, n: nat)
    requires BlocksOf(ws, e) && |d| == |e| && n < |d|
    ensures BS.Apply(d, ws)[n] == if Writes(ws, n) then e[n] else d[n]
  {
    if ws != [] {
      var front, w := ws[..|ws| - 1], ws[|ws| - 1];
      ApplyAt(d, front, e, n);
      assert Writes(ws, n) <==> Writes(front, n) || w.0 == n by {
        if Writes(front, n) {
          var k :| 0 <= k < |front| && front[k].0 == n;
          assert ws[k].0 == n;
        }
        if Writes(ws, n) && w.0 != n {
          var k :| 0 <= k < |ws| && ws[k].0 == n;
          assert front[k].0 == n;
        }
      }
    }
  }

  /** Writing the logged blocks of t over a disk that holds m makes it hold t. */
  lemma LoggedIsEnough(m: Image, t: Image, lay: Layout, start: nat, logged: set<nat>, d: B.Disk,
                       ws: seq<(nat, B.Block)>)
    requires Wellformed(m) && Wellformed(t) && Covered(m, t, lay, logged) && |d| == |m.blocks|
    requires Redo.SameHome(d, ToDisk(m, lay), start)
    requires BlocksOf(ws, ToDisk(t, lay)) && forall n: nat :: n in logged ==> Writes(ws, n)
    ensures Redo.SameHome(BS.Apply(d, ws), ToDisk(t, lay), start)
  {
    var e := ToDisk(t, lay);
    forall n: nat | Redo.Home(start, |d|, n) ensures BS.Apply(d, ws)[n] == e[n] {
      ApplyAt(d, ws, e, n);
      if n !in logged {
        UnloggedSame(m, t, lay, logged, n);
      }
    }
  }

  /** Only blocks outside the log area are logged. */
  lemma LoggedIsHome(m: Image, t: Image, lay: Layout, start: nat, logged: set<nat>, n: nat)
    requires Covered(m, t, lay, logged) && LaidOut(m, lay, start) && n in logged
    ensures Redo.Home(start, |m.blocks|, n)
  {
    PartsApart(m, lay, start, n);
  }

  lemma StillLaidOut(m: Image, t: Image, lay: Layout, start: nat, logged: set<nat>)
    requires Covered(m, t, lay, logged) && LaidOut(m, lay, start)
    ensures LaidOut(t, lay, start) && |t.blocks| == |m.blocks| && |t.inodes| == |m.inodes| && |t.bitmap| == |m.bitmap|
  {
  }

  method Listing(s: set<nat>) returns (q: seq<nat>)
    ensures |q| == |s| && forall n :: n in s <==> n in q
  {
    q := [];
    var rest := s;
    while rest != {}
      invariant rest <= s && |q| + |rest| == |s|
      invariant forall n :: n in s <==> n in rest || n in q
      decreases |rest|
    {
      var n :| n in rest;
      q := q + [n];
      rest := rest - {n};
    }
  }

  /** The log is at rest and its blocks are those of the file system. */
  ghost predicate Stored(log: LL.Log, fs: FileSystem, m: Image)
    reads log, log.bc
  {
    && BS.AtRest(log) && Wellformed(m) && LaidOut(m, fs.lay, log.start) && |log.bc.disk| == |m.blocks|
    && Redo.SameHome(log.bc.latest, ToDisk(m, fs.lay), log.start)
  }

  function Updates(m: Image, lay: Layout, q: seq<nat>): (ws: seq<(nat, B.Block)>)
    requires Wellformed(m) && forall k :: 0 <= k < |q| ==> q[k] < |m.blocks|
    ensures |ws| == |q| && BlocksOf(ws, ToDisk(m, lay)) && forall k :: 0 <= k < |q| ==> ws[k].0 == q[k]
  {
    seq(|q|, k requires 0 <= k < |q| => (q[k], DiskBlock(m, lay, q[k])))
  }

  lemma UpdatesAll(ws: seq<(nat, B.Block)>, q: seq<nat>, logged: set<nat>)
    requires |ws| == |q| && (forall k :: 0 <= k < |q| ==> ws[k].0 == q[k]) && forall n :: n in logged <==> n in q
    ensures forall n: nat :: n in logged ==> Writes(ws, n)
  {
    forall n: nat | n in logged ensures Writes(ws, n) {
      var k :| 0 <= k < |q| && q[k] == n;
      assert ws[k].0 == n;
    }
  }

  lemma SwitchesSame(trace: seq<B.Disk>, start: nat, a: B.Disk, b: B.Disk, a': B.Disk, b': B.Disk, cut: nat)
    requires BS.SwitchesAt(trace, start, a, b, cut) && Redo.SameHome(a, a', start) && Redo.SameHome(b, b', start)
    ensures BS.SwitchesAt(trace, start, a', b', cut)
  {
    forall j | 0 <= j < |trace| ensures BS.RecoversTo(trace[j], start, if j < cut then a' else b') {
      if j < cut {
        BS.RecoversToSame(trace[j], start, a, a');
      } else {
        BS.RecoversToSame(trace[j], start, b, b');
      }
    }
  }

  /** What the operation changed since m, it logged. */
  lemma OperationCovered(fs: FileSystem, m: Image)
    requires fs.AllMapped() && fs.began == m
    ensures Covered(m, fs.Img(), fs.lay, fs.logged) && Wellformed(fs.Img())
  {
  }

  /** An operation's end_op: its logged blocks are committed as one transaction. */
  method CommitOperation(log: LL.Log, fs: FileSystem, ghost m: Image)
    requires Stored(log, fs, m) && fs.AllMapped() && fs.began == m && |fs.logged| <= MAXOPBLOCKS
    modifies log, log.bc
    ensures Wellformed(fs.Img()) && Stored(log, fs, fs.Img())
    ensures |old(log.bc.writes)| <= |log.bc.writes| && log.bc.writes[..|old(log.bc.writes)|] == old(log.bc.writes)
    ensures exists cut :: BS.SwitchesAt(log.bc.writes[|old(log.bc.writes)|..], log.start, ToDisk(m, fs.lay),
                                        ToDisk(fs.Img(), fs.lay), cut)
  {
    hide Covered, Wellformed, ToDisk, LaidOut, BS.AtRest, BS.SwitchesAt, Redo.SameHome, Redo.Home, BlocksOf;
    OperationCovered(fs, m);
    var t, lay := fs.Img(), fs.lay;
    StillLaidOut(m, t, lay, log.start, fs.logged);
    RestSizes(log);
    var q := Listing(fs.logged);
    forall k | 0 <= k < |q| ensures Redo.Home(log.start, |m.blocks|, q[k]) && q[k] < |m.blocks| {
      LoggedIsHome(m, t, lay, log.start, fs.logged, q[k]);
    }
    var ws := Updates(t, lay, q);
    UpdatesAll(ws, q, fs.logged);
    LoggedIsEnough(m, t, lay, log.start, fs.logged, log.bc.latest, ws);
    ghost var latest, w := log.bc.latest, log.bc.writes;
    BS.RunTransaction(log, ws);
    ghost var trace := log.bc.writes[|w|..];
    ghost var cut :| BS.SwitchesAt(trace, log.start, latest, BS.Apply(latest, ws), cut);
    SwitchesSame(trace, log.start, latest, BS.Apply(latest, ws), ToDisk(m, lay), ToDisk(t, lay), cut);
    SameHomeTrans(log.bc.latest, BS.Apply(latest, ws), ToDisk(t, lay), log.start);
    RestSizes(log);
  }

  lemma RestSizes(log: LL.Log)
    requires BS.AtRest(log)
    ensures log.bc.disk == log.bc.latest
  {
  }

  lemma SameHomeTrans(a: B.Disk, b: B.Disk, c: B.Disk, start: nat)
    requires Redo.SameHome(a, b, start) && Redo.SameHome(b, c, start)
    ensures Redo.SameHome(a, c, start) && |a| == |c|
  {
  }

  /** What a filewrite starts from and is to write. */
  datatype Job = Job(m0: Image, lay: Layout, inum: nat, off: nat, data: seq<Byte>)

  /** The image is sound, x bytes of the data are in the file, and every other file is as it was. */
  ghost predicate Holding(m: Image, job: Job, x: nat) {
    && Wellformed(m) && Wellformed(job.m0) && job.inum < |m.inodes| == |job.m0.inodes| && x <= |job.data|
    && (var file := Contents(job.m0, job.inum);
        && (job.off <= |file| ==> Contents(m, job.inum) == Splice(file, job.off, job.data[..x]))
        && (job.off > |file| ==> Contents(m, job.inum) == file && x == 0))
    && (forall j: nat :: j < |m.inodes| && j != job.inum ==> Contents(m, j) == Contents(job.m0, j))
    && Sound(m, job.lay)
  }

  /** The images between operations and how much of the data is in each: whole chunks, but for the last. */
  ghost predicate Timeline(images: seq<Image>, marks: seq<nat>, job: Job) {
    && |images| == |marks| > 0 && marks[0] == 0
    && (forall k :: 0 <= k < |images| ==> Holding(images[k], job, marks[k]))
    && (forall k :: 0 <= k < |marks| - 1 ==> marks[k] == k * CHUNK)
    && (|marks| > 1 ==> marks[|marks| - 1] <= (|marks| - 1) * CHUNK)
  }

  ghost predicate RecoversToImage(d: B.Disk, start: nat, m: Image, lay: Layout) {
    Wellformed(m) && BS.RecoversTo(d, start, ToDisk(m, lay))
  }

  ghost predicate RecoversToOne(d: B.Disk, start: nat, images: seq<Image>, lay: Layout) {
    exists k :: 0 <= k < |images| && RecoversToImage(d, start, images[k], lay)
  }

  /** Every disk a crash can leave behind recovers to one of the images. */
  ghost predicate AllRecover(trace: seq<B.Disk>, start: nat, images: seq<Image>, lay: Layout) {
    forall j :: 0 <= j < |trace| ==> RecoversToOne(trace[j], start, images, lay)
  }

  lemma RecoverMore(trace: seq<B.Disk>, more: seq<B.Disk>, start: nat, images: seq<Image>, m: Image, lay: Layout,
                    cut: nat)
    requires AllRecover(trace, start, images, lay) && images != [] && Wellformed(images[|images| - 1]) && Wellformed(m)
    requires BS.SwitchesAt(more, start, ToDisk(images[|images| - 1], lay), ToDisk(m, lay), cut)
    ensures AllRecover(trace + more, start, images + [m], lay)
  {
    hide BS.RecoversTo, ToDisk, Wellformed;
    var images' := images + [m];
    forall j | 0 <= j < |trace + more| ensures RecoversToOne((trace + more)[j], start, images', lay) {
      if j < |trace| {
        var k :| 0 <= k < |images| && RecoversToImage(trace[j], start, images[k], lay);
        assert images'[k] == images[k] && RecoversToImage((trace + more)[j], start, images'[k], lay);
      } else {
        var x := j - |trace|;
        assert (trace + more)[j] == more[x];
        var k := if x < cut then |images| - 1 else |images|;
        assert RecoversToImage(more[x], start, images'[k], lay);
      }
    }
  }

  lemma TimelineMore(images: seq<Image>, marks: seq<nat>, job: Job, m: Image, x: nat)
    requires Timeline(images, marks, job) && Holding(m, job, x)
    requires marks[|marks| - 1] == (|marks| - 1) * CHUNK && x <= |marks| * CHUNK
    ensures Timeline(images + [m], marks + [x], job)
  {
    hide Holding;
  }

  lemma HoldingNow(f: File, job: Job, x: nat)
    requires f.Ready() && Wellformed(job.m0) && f.inum == job.inum < |job.m0.inodes| && f.fs.lay == job.lay
    requires f.Progress(Contents(job.m0, job.inum), job.off, job.data, x) && f.OthersKept(job.m0)
    ensures Holding(f.fs.Img(), job, x)
  {
    SoundNow(f.fs);
    hide Sound, Contents, Splice;
  }

  lemma SoundNow(fs: FileSystem)
    requires fs.AllMapped()
    ensures Sound(fs.Img(), fs.lay)
  {
    hide Tree, Marked, Mapped, Covered;
    fs.WellformedNow();
    assert Tree(fs.Img(), fs.lay, fs.own) && Marked(fs.Img(), fs.lay, fs.own, {});
  }

  /** A round of filewrite's loop and the commit of its operation. */
  method DurableRound(log: LL.Log, f: File, data: seq<Byte>, done: nat, ghost job: Job) returns (got: nat, whole: bool)
    requires Wellformed(job.m0) && f.inum == job.inum < |job.m0.inodes| && f.fs.lay == job.lay && job.data == data
    requires f.Progress(Contents(job.m0, job.inum), job.off, data, done) && f.OthersKept(job.m0) && done < |data|
    requires Stored(log, f.fs, f.fs.Img())
    modifies f, f.fs, log, log.bc
    ensures f.Progress(Contents(job.m0, job.inum), job.off, data, done + got) && f.OthersKept(job.m0)
    ensures got <= Min(|data| - done, CHUNK) && (whole <==> got == Min(|data| - done, CHUNK))
    ensures Stored(log, f.fs, f.fs.Img()) && Holding(f.fs.Img(), job, done + got)
    ensures |old(log.bc.writes)| <= |log.bc.writes| && log.bc.writes[..|old(log.bc.writes)|] == old(log.bc.writes)
    ensures Wellformed(old(f.fs.Img())) && Wellformed(f.fs.Img())
    ensures exists cut :: BS.SwitchesAt(log.bc.writes[|old(log.bc.writes)|..], log.start,
                                        ToDisk(old(f.fs.Img()), job.lay), ToDisk(f.fs.Img(), job.lay), cut)
  {
    hide Stored, Contents, Splice, Wellformed, BS.SwitchesAt, ToDisk, Holding, Tree, Marked, Covered, Mapped;
    ghost var m := f.fs.Img();
    f.fs.WellformedNow();
    got, whole := f.Round(data, done, Contents(job.m0, job.inum), job.off, job.m0);
    CommitOperation(log, f.fs, m);
    HoldingNow(f, job, done + got);
  }

  /**
   filewrite with its log.  Whenever the machine stops, recovery finds a sound
   file system in which this file holds its old contents with a whole number of
   chunks, or all that filewrite wrote, spliced in, and every other file is as
   it was.
   */
  method DurableFilewrite(log: LL.Log, f: File, data: seq<Byte>)
    returns (ret: int, ghost images: seq<Image>, ghost marks: seq<nat>)
    requires f.Ready() && f.WithinBudget() && |data| < 0x8000_0000 && Stored(log, f.fs, f.fs.Img())
    modifies f, f.fs, log, log.bc
    ensures f.Ready() && f.WithinBudget() && Stored(log, f.fs, f.fs.Img())
    ensures Timeline(images, marks, Job(old(f.fs.Img()), f.fs.lay, f.inum, old(f.off), data))
    ensures images[|images| - 1] == f.fs.Img() && f.off == old(f.off) + marks[|marks| - 1]
    ensures ret == if f.writable && marks[|marks| - 1] == |data| then |data| else -1
    ensures |old(log.bc.writes)| <= |log.bc.writes| && log.bc.writes[..|old(log.bc.writes)|] == old(log.bc.writes)
    ensures AllRecover(log.bc.writes[|old(log.bc.writes)|..], log.start, images, f.fs.lay)
    ensures RecoversToImage(log.bc.disk, log.start, f.fs.Img(), f.fs.lay)
  {
    hide Stored, Contents, Splice, Wellformed, BS.SwitchesAt, ToDisk, Holding, Tree, Marked, Covered, Mapped,
         RecoversToImage, AllRecover;
    ghost var m0 := f.fs.Img();
    ghost var job := Job(m0, f.fs.lay, f.inum, f.off, data);
    f.fs.WellformedNow();
    f.Start(data);
    HoldingNow(f, job, 0);
    RestRecoversToImage(log, f.fs, m0);
    NoneRecover(log.start, [m0], f.fs.lay);
    assert log.bc.writes[|log.bc.writes|..] == [];
    images, marks, ret := [m0], [0], -1;
    if f.writable {
      var i;
      i, images, marks := WriteChunks(log, f, data, job);
      RestRecoversToImage(log, f.fs, f.fs.Img());
      if i == |data| {
        ret := i;
      }
    }
  }

  /** filewrite's loop. */
  method WriteChunks(log: LL.Log, f: File, data: seq<Byte>, ghost job: Job)
    returns (i: nat, ghost images: seq<Image>, ghost marks: seq<nat>)
    requires Wellformed(job.m0) && f.inum == job.inum < |job.m0.inodes| && f.fs.lay == job.lay && job.data == data
    requires f.Progress(Contents(job.m0, job.inum), job.off, data, 0) && f.OthersKept(job.m0)
    requires Stored(log, f.fs, f.fs.Img()) && job.m0 == f.fs.Img() && Holding(job.m0, job, 0)
    modifies f, f.fs, log, log.bc
    ensures f.Progress(Contents(job.m0, job.inum), job.off, data, i) && Stored(log, f.fs, f.fs.Img())
    ensures Timeline(images, marks, job) && images[|images| - 1] == f.fs.Img() && marks[|marks| - 1] == i
    ensures |old(log.bc.writes)| <= |log.bc.writes| && log.bc.writes[..|old(log.bc.writes)|] == old(log.bc.writes)
    ensures AllRecover(log.bc.writes[|old(log.bc.writes)|..], log.start, images, f.fs.lay)
  {
    hide Stored, Contents, Splice, Wellformed, BS.SwitchesAt, ToDisk, Holding, Tree, Marked, Covered, Mapped,
      AllRecover;
    ghost var w, trace: seq<B.Disk> := log.bc.writes, [];
    images, marks := [job.m0], [0];
    NoneRecover(log.start, images, job.lay);
    i := 0;
    while i < |data|
      invariant f.Progress(Contents(job.m0, job.inum), job.off, data, i) && f.OthersKept(job.m0)
      invariant Stored(log, f.fs, f.fs.Img()) && Timeline(images, marks, job)
      invariant images[|images| - 1] == f.fs.Img() && marks[|marks| - 1] == i
      invariant i < |data| ==> i == (|marks| - 1) * CHUNK
      invariant log.bc.writes == w + trace && AllRecover(trace, log.start, images, f.fs.lay)
    {
      ghost var m, w1 := f.fs.Img(), log.bc.writes;
      var got, whole := DurableRound(log, f, data, i, job);
      ghost var more := log.bc.writes[|w1|..];
      ghost var cut :| BS.SwitchesAt(more, log.start, ToDisk(m, job.lay), ToDisk(f.fs.Img(), job.lay), cut);
      RecoverMore(trace, more, log.start, images, f.fs.Img(), job.lay, cut);
      TimelineMore(images, marks, job, f.fs.Img(), i + got);
      trace, images, marks := trace + more, images + [f.fs.Img()], marks + [i + got];
      i := i + got;
      if !whole {
        break;
      }
    }
    assert log.bc.writes[|w|..] == trace;
  }

  lemma NoneRecover(start: nat, images: seq<Image>, lay: Layout)
    ensures AllRecover([], start, images, lay)
  {
  }

  lemma RestRecoversToImage(log: LL.Log, fs: FileSystem, m: Image)
    requires Stored(log, fs, m)
    ensures RecoversToImage(log.bc.disk, log.start, m, fs.lay)
  {
    Redo.UncommittedRecovers(log.bc.disk, log.start);
    BS.RestRecovers(log.bc.disk, log.start, ToDisk(m, fs.lay));
  }

  /** What mounting the recovered disk finds: a sound file system whose files read as in the image. */
  lemma CrashReadsAs(d: B.Disk, start: nat, m: Image, lay: Layout)
    requires RecoversToImage(d, start, m, lay) && LaidOut(m, lay, start) && Sound(m, lay)
    ensures Redo.LogOk(d, start) && ReadsAs(Redo.Recovered(d, start), m, lay)
  {
    var r := Redo.Recovered(d, start);
    assert Holds(r, m, lay, start) by {
      forall n | start + LOGBLOCKS < n < |r| ensures r[n] == DiskBlock(m, lay, n) {
        assert Redo.Home(start, |r|, n);
      }
    }
    SoundReadsBack(r, m, lay, start);
  }
}
