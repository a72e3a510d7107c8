/**
 The buffer cache (bio.c).  Every method is one critical section of the
 source: the code runs it under bcache.lock or while holding the buffer's
 sleep lock.  Any interleaving of processes is a sequence of these calls.
 */
module Bio {
  import opened Wrappers
  import opened Blocks
  import opened Ring

  /** `holder` is the pid inside the sleep lock, 0 when it is free. */
  datatype Buf = Buf(dev: nat, blockno: nat, valid: bool, refcnt: nat, data: Block, holder: nat)

  ghost predicate Tagged(b: Buf, blockno: nat) {
    b.dev == ROOTDEV && b.blockno == blockno
  }

  ghost predicate Cached(bufs: seq<Buf>, blockno: nat) {
    exists i :: 0 <= i < |bufs| && Tagged(bufs[i], blockno)
  }

  ghost predicate Wellformed(bufs: seq<Buf>, blocks: nat) {
    forall i :: 0 <= i < |bufs| ==>
      (bufs[i].dev == ROOTDEV && bufs[i].blockno < blocks) || (bufs[i].dev == 0 && !bufs[i].valid)
  }

  /** No block has two buffers.  Buffers still carrying binit's (0, 0) tag are exempt. */
  ghost predicate Unique(bufs: seq<Buf>) {
    forall i, j :: 0 <= i < j < |bufs| && bufs[i].dev == bufs[j].dev == ROOTDEV ==>
      bufs[i].blockno != bufs[j].blockno
  }

  /** A reference is an unmatched bget or an unmatched bpin; a lock holder has one. */
  ghost predicate Counted(bufs: seq<Buf>, refs: seq<nat>, pins: seq<nat>) {
    && |refs| == |pins| == |bufs|
    && forall i :: 0 <= i < |bufs| ==>
      && bufs[i].refcnt == refs[i] + pins[i]
      && (bufs[i].holder != 0 ==> refs[i] > 0)
      && (bufs[i].refcnt > 0 ==> bufs[i].dev == ROOTDEV)
  }

  /** A valid buffer shows the latest contents of its block. */
  ghost predicate Shows(bufs: seq<Buf>, latest: Disk) {
    forall i :: 0 <= i < |bufs| && bufs[i].dev == ROOTDEV && bufs[i].valid && bufs[i].blockno < |latest| ==>
      bufs[i].data == latest[bufs[i].blockno]
  }

  ghost predicate KeptBy(bufs: seq<Buf>, pins: seq<nat>, i: nat, blockno: nat) {
    i < |bufs| && i < |pins| && Tagged(bufs[i], blockno) && bufs[i].valid && (pins[i] > 0 || bufs[i].holder != 0)
  }

  /** Contents not yet on disk live in a buffer that is pinned or locked. */
  ghost predicate Kept(bufs: seq<Buf>, pins: seq<nat>, disk: Disk, latest: Disk) {
    && |disk| == |latest|
    && forall n :: 0 <= n < |disk| && disk[n] != latest[n] ==> exists i :: KeptBy(bufs, pins, i, n)
  }

  ghost predicate Coherent(bufs: seq<Buf>, refs: seq<nat>, pins: seq<nat>, disk: Disk, latest: Disk) {
    && |bufs| == NBUF
    && Wellformed(bufs, |disk|)
    && Unique(bufs)
    && Counted(bufs, refs, pins)
    && Shows(bufs, latest)
    && Kept(bufs, pins, disk, latest)
  }

  /** The ring is sorted by the time of the last release, latest first. */
  ghost predicate ByRelease(ring: seq<nat>, released: seq<nat>, clock: nat) {
    && |released| == NBUF
    && (forall i :: 0 <= i < |released| ==> released[i] <= clock)
    && forall i, j :: 0 <= i < j < |ring| && ring[i] < NBUF && ring[j] < NBUF ==>
      released[ring[i]] >= released[ring[j]]
  }

  /** Recycling loses nothing: an unreferenced valid buffer equals its disk block. */
  lemma UnreferencedIsClean(bufs: seq<Buf>, refs: seq<nat>, pins: seq<nat>, disk: Disk, latest: Disk, i: nat)
    requires Coherent(bufs, refs, pins, disk, latest)
    requires i < NBUF && bufs[i].valid && bufs[i].refcnt == 0
    ensures bufs[i].blockno < |disk| && bufs[i].data == disk[bufs[i].blockno]
  {
    var n := bufs[i].blockno;
    if disk[n] != latest[n] {
      var k :| KeptBy(bufs, pins, k, n);
    }
  }

  /** An uncached or invalid block's disk contents are the latest. */
  lemma InvalidMeansOnDisk(bufs: seq<Buf>, refs: seq<nat>, pins: seq<nat>, disk: Disk, latest: Disk, n: nat)
    requires Coherent(bufs, refs, pins, disk, latest) && n < |disk|
    requires forall i :: 0 <= i < NBUF && Tagged(bufs[i], n) ==> !bufs[i].valid
    ensures disk[n] == latest[n]
  {
  }

  lemma RecycleCoherent(bufs: seq<Buf>, refs: seq<nat>, pins: seq<nat>, disk: Disk, latest: Disk, i: nat, n: nat)
    requires Coherent(bufs, refs, pins, disk, latest)
    requires i < NBUF && bufs[i].refcnt == 0 && n < |disk| && !Cached(bufs, n)
    ensures Coherent(bufs[i := bufs[i].(dev := ROOTDEV, blockno := n, valid := false, refcnt := 1)],
                     refs[i := 1], pins, disk, latest)
  {
    var bufs' := bufs[i := bufs[i].(dev := ROOTDEV, blockno := n, valid := false, refcnt := 1)];
    assert !Tagged(bufs[i], n);
    forall m | 0 <= m < |disk| && disk[m] != latest[m] ensures exists k :: KeptBy(bufs', pins, k, m) {
      var k :| KeptBy(bufs, pins, k, m);
      assert k != i;
      assert KeptBy(bufs', pins, k, m);
    }
    forall j, k | 0 <= j < k < |bufs'| && bufs'[j].dev == bufs'[k].dev == ROOTDEV
      ensures bufs'[j].blockno != bufs'[k].blockno
    {
      assert !Tagged(bufs[j], n) && !Tagged(bufs[k], n);
    }
  }

  /** One buffer changes, but neither its tag nor its contents nor what keeps it. */
  lemma BufferChangeCoherent(bufs: seq<Buf>, refs: seq<nat>, pins: seq<nat>, disk: Disk, latest: Disk,
                             i: nat, b: Buf, r: nat, p: nat)
    requires Coherent(bufs, refs, pins, disk, latest) && i < NBUF
    requires b.dev == bufs[i].dev == ROOTDEV && b.blockno == bufs[i].blockno
    requires b.refcnt == r + p && (b.holder != 0 ==> r > 0)
    requires b.valid ==> b.data == latest[b.blockno]
    requires bufs[i].valid ==> b.valid
    requires disk[b.blockno] != latest[b.blockno] ==> p > 0 || b.holder != 0
    ensures Coherent(bufs[i := b], refs[i := r], pins[i := p], disk, latest)
  {
    var bufs', pins' := bufs[i := b], pins[i := p];
    forall m | 0 <= m < |disk| && disk[m] != latest[m] ensures exists k :: KeptBy(bufs', pins', k, m) {
      var k :| KeptBy(bufs, pins, k, m);
      assert KeptBy(bufs', pins', k, m);
    }
  }

  lemma CoherentSizes(bufs: seq<Buf>, refs: seq<nat>, pins: seq<nat>, disk: Disk, latest: Disk)
    requires Coherent(bufs, refs, pins, disk, latest)
    ensures |bufs| == |refs| == |pins| == NBUF && |disk| == |latest|
    ensures forall i :: 0 <= i < NBUF ==> bufs[i].refcnt == refs[i] + pins[i]
  {
  }

  /** One more reference to a cached block's buffer. */
  lemma AddRefCoherent(bufs: seq<Buf>, refs: seq<nat>, pins: seq<nat>, disk: Disk, latest: Disk, b: nat)
    requires Coherent(bufs, refs, pins, disk, latest) && b < NBUF && |bufs| == |refs| == |pins| == NBUF
      && bufs[b].dev == ROOTDEV
    ensures Coherent(bufs[b := bufs[b].(refcnt := bufs[b].refcnt + 1)], refs[b := refs[b] + 1], pins, disk, latest)
  {
    BufferChangeCoherent(bufs, refs, pins, disk, latest, b, bufs[b].(refcnt := bufs[b].refcnt + 1),
                           refs[b] + 1, pins[b]);
    assert pins == pins[b := pins[b]];
  }

  /** One reference less, which is not the lock holder's. */
  lemma DropRefCoherent(bufs: seq<Buf>, refs: seq<nat>, pins: seq<nat>, disk: Disk, latest: Disk, b: nat)
    requires Coherent(bufs, refs, pins, disk, latest) && b < NBUF && |bufs| == |refs| == |pins| == NBUF
    requires refs[b] > if bufs[b].holder != 0 then 1 else 0
    ensures bufs[b].refcnt > 0
    ensures Coherent(bufs[b := bufs[b].(refcnt := bufs[b].refcnt - 1)], refs[b := refs[b] - 1], pins, disk, latest)
  {
    var less := bufs[b].(refcnt := bufs[b].refcnt - 1);
    BufferChangeCoherent(bufs, refs, pins, disk, latest, b, less, refs[b] - 1, pins[b]);
    assert pins == pins[b := pins[b]];
  }

  /** The lock holder of a valid buffer gives its block new contents. */
  lemma ModifyCoherent(bufs: seq<Buf>, refs: seq<nat>, pins: seq<nat>, disk: Disk, latest: Disk, i: nat, data: Block)
    requires Coherent(bufs, refs, pins, disk, latest)
    requires i < NBUF && bufs[i].valid && bufs[i].holder != 0
    ensures Coherent(bufs[i := bufs[i].(data := data)], refs, pins, disk, latest[bufs[i].blockno := data])
  {
    var n := bufs[i].blockno;
    var bufs', latest' := bufs[i := bufs[i].(data := data)], latest[n := data];
    forall m | 0 <= m < |disk| && disk[m] != latest'[m] ensures exists k :: KeptBy(bufs', pins, k, m) {
      if m == n {
        assert KeptBy(bufs', pins, i, m);
      } else {
        var k :| KeptBy(bufs, pins, k, m);
        assert KeptBy(bufs', pins, k, m);
      }
    }
  }

  lemma WriteCoherent(bufs: seq<Buf>, refs: seq<nat>, pins: seq<nat>, disk: Disk, latest: Disk, i: nat)
    requires Coherent(bufs, refs, pins, disk, latest)
    requires i < NBUF && bufs[i].valid
    ensures Coherent(bufs, refs, pins, disk[bufs[i].blockno := bufs[i].data], latest)
  {
    var disk' := disk[bufs[i].blockno := bufs[i].data];
    forall m | 0 <= m < |disk'| && disk'[m] != latest[m] ensures exists k :: KeptBy(bufs, pins, k, m) {
      assert disk[m] != latest[m];
    }
  }

  lemma ReleaseKeepsOrder(ring: seq<nat>, p: nat, released: seq<nat>, clock: nat)
    requires Permutation(ring) && p < NBUF && ByRelease(ring, released, clock)
    ensures ByRelease(MoveToFront(ring, p), released[ring[p] := clock + 1], clock + 1)
  {
  }

  class Bcache {
    var disk: Disk                   // block contents behind virtio_disk_rw
    ghost var writes: seq<Disk>      // the disk after each bwrite: where a crash can leave it
    var bufs: seq<Buf>
    var next: seq<nat>
    var prev: seq<nat>
    ghost var ring: seq<nat>
    ghost var refs: seq<nat>
    ghost var pins: seq<nat>
    ghost var released: seq<nat>
    ghost var clock: nat
    ghost var latest: Disk           // every block as its last modifier left it

    ghost predicate Valid()
      reads this
    {
      && |bufs| == |refs| == |pins| == NBUF && |disk| == |latest|
      && Linked(ring, next, prev)
      && Coherent(bufs, refs, pins, disk, latest)
      && ByRelease(ring, released, clock)
    }

    /** binit, on whatever contents the disk has at boot. */
    constructor (d: Disk)
      ensures Valid()
      ensures disk == latest == d && writes == []
      ensures refs == pins == seq(NBUF, i => 0)
      ensures forall i :: 0 <= i < NBUF ==> bufs[i].holder == 0 && bufs[i].dev == 0
    {
      disk, latest, writes := d, d, [];
      bufs := seq(NBUF, i => Buf(0, 0, false, 0, seq(WORDS, j => 0), 0));
      refs, pins, released, clock := seq(NBUF, i => 0), seq(NBUF, i => 0), seq(NBUF, i => 0), 0;
      var n: seq<nat>, q: seq<nat> := seq(NBUF + 1, i => HEAD), seq(NBUF + 1, i => HEAD);
      ghost var r: seq<nat> := [];
      for b := 0 to NBUF
        invariant Threaded(r, n, q) && Distinct(r)
        invariant |r| == b && forall i :: 0 <= i < b ==> i in r
        invariant forall i :: 0 <= i < |r| ==> r[i] < b
      {
        PushFront(r, b, n, q);
        n, q, r := n[b := n[HEAD]][HEAD := b], q[b := HEAD][n[HEAD] := b], [b] + r;
      }
      next, prev, ring := n, q, r;
    }

    /** bget's first loop: walk forwards to the buffer of `blockno`; HEAD when there is none. */
    method FindCached(blockno: nat) returns (b: nat)
      requires Valid()
      ensures b <= NBUF
      ensures b < NBUF ==> Tagged(bufs[b], blockno)
      ensures b == HEAD <==> !Cached(bufs, blockno)
    {
      b := next[HEAD];
      ghost var k := 0;
      assert b == At(ring, 0) by { assert next[At(ring, -1)] == At(ring, 0); }
      while b != HEAD
        invariant 0 <= k <= NBUF && b == At(ring, k)
        invariant forall j :: 0 <= j < k ==> !Tagged(bufs[ring[j]], blockno)
        decreases NBUF - k
      {
        if bufs[b].dev == ROOTDEV && bufs[b].blockno == blockno {
          return;
        }
        assert next[At(ring, k)] == At(ring, k + 1);
        b := next[b];
        k := k + 1;
      }
      forall i | 0 <= i < NBUF ensures !Tagged(bufs[i], blockno) {
        assert i in ring;
      }
    }

    /** bget's second loop: walk backwards to the first unreferenced buffer. */
    method FindVictim() returns (b: nat)
      requires Valid()
      ensures b <= NBUF
      ensures b < NBUF ==> bufs[b].refcnt == 0 &&
                           forall j :: 0 <= j < NBUF && bufs[j].refcnt == 0 ==> released[b] <= released[j]
      ensures b == HEAD <==> forall j :: 0 <= j < NBUF ==> bufs[j].refcnt > 0
    {
      b := prev[HEAD];
      ghost var k := NBUF - 1;
      assert b == At(ring, k) by { assert prev[At(ring, NBUF)] == At(ring, NBUF - 1); }
      while b != HEAD
        invariant -1 <= k < NBUF && b == At(ring, k)
        invariant forall j :: k < j < NBUF ==> bufs[ring[j]].refcnt > 0
        decreases k
      {
        if bufs[b].refcnt == 0 {
          forall j | 0 <= j < NBUF && bufs[j].refcnt == 0 ensures released[b] <= released[j] {
            assert j in ring;
            var q :| 0 <= q < |ring| && ring[q] == j;
          }
          return;
        }
        assert prev[At(ring, k)] == At(ring, k - 1);
        b := prev[b];
        k := k - 1;
      }
      forall i | 0 <= i < NBUF ensures bufs[i].refcnt > 0 {
        assert i in ring;
      }
    }

    /**
     bget up to its acquiresleep: find or recycle a buffer and take a reference.
     None is the source's panic: the block is not cached and every buffer is referenced.
     */
    method Bget(blockno: nat) returns (r: Option<nat>)
      requires Valid() && blockno < |disk|
      modifies this`bufs, this`refs
      ensures Valid()
      ensures r.None? <==> !old(Cached(bufs, blockno)) && forall i :: 0 <= i < NBUF ==> old(bufs)[i].refcnt > 0
      ensures r.None? ==> bufs == old(bufs) && refs == old(refs)
      ensures r.Some? ==>
        var i := r.value;
        && i < NBUF && refs == old(refs)[i := old(refs)[i] + 1]
        && bufs == old(bufs)[i := bufs[i]] && Tagged(bufs[i], blockno)
        && bufs[i].holder == old(bufs)[i].holder && bufs[i].refcnt == refs[i] + pins[i]
        && (old(Cached(bufs, blockno)) ==> Tagged(old(bufs)[i], blockno) && bufs[i].valid == old(bufs)[i].valid
                                           && bufs[i].data == old(bufs)[i].data)
        && (!old(Cached(bufs, blockno)) ==>
              && old(bufs)[i].refcnt == 0 && !bufs[i].valid
              && forall j :: 0 <= j < NBUF && old(bufs)[j].refcnt == 0 ==> released[i] <= released[j])
    {
      hide Coherent, Linked, ByRelease;
      CoherentSizes(bufs, refs, pins, disk, latest);
      var b := FindCached(blockno);
      if b != HEAD {
        AddRefCoherent(bufs, refs, pins, disk, latest, b);
        refs := refs[b := refs[b] + 1];
        bufs := bufs[b := bufs[b].(refcnt := bufs[b].refcnt + 1)];
        return Some(b);
      }
      b := FindVictim();
      if b != HEAD {
        RecycleCoherent(bufs, refs, pins, disk, latest, b, blockno);
        refs := refs[b := 1];
        bufs := bufs[b := bufs[b].(dev := ROOTDEV, blockno := blockno, valid := false, refcnt := 1)];
        return Some(b);
      }
      return None;
    }

    /** bget's acquiresleep, once the lock is free. */
    method AcquireSleep(b: nat, pid: nat)
      requires Valid() && b < NBUF && refs[b] > 0 && bufs[b].holder == 0 && pid != 0
      modifies this`bufs
      ensures Valid()
      ensures bufs == old(bufs)[b := old(bufs)[b].(holder := pid)]
    {
      BufferChangeCoherent(bufs, refs, pins, disk, latest, b, bufs[b].(holder := pid), refs[b], pins[b]);
      assert pins == pins[b := pins[b]] && refs == refs[b := refs[b]];
      bufs := bufs[b := bufs[b].(holder := pid)];
    }

    /** bread's disk read, by the lock holder: afterwards the buffer shows the latest contents. */
    method Fill(b: nat, pid: nat)
      requires Valid() && b < NBUF && pid != 0 && bufs[b].holder == pid
      modifies this`bufs
      ensures Valid() && bufs[b].blockno < |latest|
      ensures bufs == old(bufs)[b := old(bufs)[b].(valid := true, data := latest[bufs[b].blockno])]
    {
      if !bufs[b].valid {
        InvalidMeansOnDisk(bufs, refs, pins, disk, latest, bufs[b].blockno);
        ghost var filled := bufs[b].(data := disk[bufs[b].blockno], valid := true);
        BufferChangeCoherent(bufs, refs, pins, disk, latest, b, filled, refs[b], pins[b]);
        assert pins == pins[b := pins[b]] && refs == refs[b := refs[b]];
        bufs := bufs[b := bufs[b].(data := disk[bufs[b].blockno])];
        bufs := bufs[b := bufs[b].(valid := true)];
        assert bufs == old(bufs)[b := filled];
      }
    }

    /** bread when no one else has the block's lock.  It returns the latest contents. */
    method Bread(blockno: nat, pid: nat) returns (r: Option<nat>)
      requires Valid() && blockno < |disk| && pid != 0
      requires forall i :: 0 <= i < NBUF && Tagged(bufs[i], blockno) ==> bufs[i].holder == 0
      modifies this`bufs, this`refs
      ensures Valid()
      ensures r.None? <==> !old(Cached(bufs, blockno)) && forall i :: 0 <= i < NBUF ==> old(bufs)[i].refcnt > 0
      ensures r.None? ==> bufs == old(bufs) && refs == old(refs)
      ensures r.Some? ==>
        var i := r.value;
        && i < NBUF && refs == old(refs)[i := old(refs)[i] + 1]
        && bufs == old(bufs)[i := Buf(ROOTDEV, blockno, true, refs[i] + pins[i], latest[blockno], pid)]
        && (old(Cached(bufs, blockno)) ==> Tagged(old(bufs)[i], blockno))
        && (!old(Cached(bufs, blockno)) ==> old(bufs)[i].refcnt == old(refs)[i] == pins[i] == 0)
    {
      r := Bget(blockno);
      if r.Some? {
        AcquireSleep(r.value, pid);
        Fill(r.value, pid);
      }
    }

    /** The holder overwrites the buffer's data. */
    method Modify(b: nat, pid: nat, data: Block)
      requires Valid() && b < NBUF && pid != 0 && bufs[b].holder == pid && bufs[b].valid
      modifies this`bufs, this`latest
      ensures Valid() && bufs[b].blockno < |old(latest)|
      ensures latest == old(latest)[bufs[b].blockno := data]
      ensures bufs == old(bufs)[b := old(bufs)[b].(data := data)]
    {
      ModifyCoherent(bufs, refs, pins, disk, latest, b, data);
      latest := latest[bufs[b].blockno := data];
      bufs := bufs[b := bufs[b].(data := data)];
    }

    /** bwrite: one atomic block write. */
    method Bwrite(b: nat, pid: nat)
      requires Valid() && b < NBUF && pid != 0 && bufs[b].holder == pid && bufs[b].valid
      modifies this`disk, this`writes
      ensures Valid() && bufs[b].blockno < |old(disk)|
      ensures disk == old(disk)[bufs[b].blockno := bufs[b].data]
      ensures writes == old(writes) + [disk]
    {
      WriteCoherent(bufs, refs, pins, disk, latest, b);
      disk := disk[bufs[b].blockno := bufs[b].data];
      writes := writes + [disk];
    }

    /** brelse's releasesleep.  Contents that are not on disk must have been pinned by log_write. */
    method ReleaseSleep(b: nat, pid: nat)
      requires Valid() && b < NBUF && pid != 0 && bufs[b].holder == pid && bufs[b].blockno < |disk|
      requires pins[b] > 0 || disk[bufs[b].blockno] == latest[bufs[b].blockno]
      modifies this`bufs
      ensures Valid()
      ensures bufs == old(bufs)[b := old(bufs)[b].(holder := 0)]
    {
      BufferChangeCoherent(bufs, refs, pins, disk, latest, b, bufs[b].(holder := 0), refs[b], pins[b]);
      assert pins == pins[b := pins[b]] && refs == refs[b := refs[b]];
      bufs := bufs[b := bufs[b].(holder := 0)];
    }

    /** brelse's pointer writes. */
    method Relink(b: nat)
      requires |next| == |prev| == NBUF + 1 && b < NBUF
      requires prev[b] <= NBUF && next[b] <= NBUF && next[b] != b
      requires next[prev[b] := next[b]][HEAD] <= NBUF && next[prev[b] := next[b]][HEAD] != b
      modifies this`next, this`prev
      ensures next == old(RelinkNext(b, next, prev)) && prev == old(RelinkPrev(b, next, prev))
    {
      prev := prev[next[b] := prev[b]];
      next := next[prev[b] := next[b]];
      next := next[b := next[HEAD]];
      prev := prev[b := HEAD];
      prev := prev[next[HEAD] := b];
      next := next[HEAD := b];
    }

    /** The last brelse makes b the most recently released buffer. */
    method MoveFirst(b: nat)
      requires Linked(ring, next, prev) && ByRelease(ring, released, clock) && b < NBUF
      modifies this`next, this`prev, this`ring, this`released, this`clock
      ensures Linked(ring, next, prev) && ByRelease(ring, released, clock)
      ensures ring[0] == b && forall j :: 0 <= j < NBUF && j != b ==> released[j] < released[b]
      ensures forall j :: 0 <= j < NBUF && j != b ==> released[j] == old(released)[j]
    {
      ghost var p := PositionOf(ring, b);
      RelinkMovesToFront(ring, p, next, prev);
      ReleaseKeepsOrder(ring, p, released, clock);
      ghost var r := MoveToFront(ring, p);
      Relink(b);
      ring := r;
      released, clock := released[b := clock + 1], clock + 1;
    }

    /**
     brelse's critical section: give up a reference that is not the lock
     holder's; the last one moves the buffer to the front of the ring.
     */
    method DropRef(b: nat)
      requires Valid() && b < NBUF && refs[b] > if bufs[b].holder != 0 then 1 else 0
      modifies this`bufs, this`refs, this`next, this`prev, this`ring, this`released, this`clock
      ensures Valid()
      ensures refs == old(refs)[b := old(refs)[b] - 1]
      ensures bufs == old(bufs)[b := old(bufs)[b].(refcnt := old(bufs)[b].refcnt - 1)]
      ensures bufs[b].refcnt > 0 ==> ring == old(ring) && released == old(released)
      ensures bufs[b].refcnt == 0 ==> ring[0] == b && forall j :: 0 <= j < NBUF && j != b ==> released[j] < released[b]
    {
      hide Coherent;
      DropRefCoherent(bufs, refs, pins, disk, latest, b);
      refs := refs[b := refs[b] - 1];
      bufs := bufs[b := bufs[b].(refcnt := bufs[b].refcnt - 1)];
      if bufs[b].refcnt == 0 {
        MoveFirst(b);
      }
    }

    /** brelse by a process that did not leave unlogged contents behind. */
    method Brelse(b: nat, pid: nat)
      requires Valid() && b < NBUF && pid != 0 && bufs[b].holder == pid && bufs[b].blockno < |disk|
      requires pins[b] > 0 || disk[bufs[b].blockno] == latest[bufs[b].blockno]
      modifies this`bufs, this`refs, this`next, this`prev, this`ring, this`released, this`clock
      ensures Valid()
      ensures old(refs)[b] > 0 && refs == old(refs)[b := old(refs)[b] - 1]
      ensures bufs == old(bufs)[b := old(bufs)[b].(holder := 0, refcnt := refs[b] + pins[b])]
    {
      ReleaseSleep(b, pid);
      DropRef(b);
    }

    method Bpin(b: nat)
      requires Valid() && b < NBUF && bufs[b].refcnt > 0
      modifies this`bufs, this`pins
      ensures Valid()
      ensures pins == old(pins)[b := old(pins)[b] + 1]
      ensures bufs == old(bufs)[b := old(bufs)[b].(refcnt := old(bufs)[b].refcnt + 1)]
    {
      BufferChangeCoherent(bufs, refs, pins, disk, latest, b, bufs[b].(refcnt := bufs[b].refcnt + 1),
                           refs[b], pins[b] + 1);
      assert refs == refs[b := refs[b]];
      pins := pins[b := pins[b] + 1];
      bufs := bufs[b := bufs[b].(refcnt := bufs[b].refcnt + 1)];
    }

    /** bunpin of a buffer that is locked or already on disk. */
    method Bunpin(b: nat)
      requires Valid() && b < NBUF && pins[b] > 0 && bufs[b].blockno < |disk|
      requires bufs[b].holder != 0 || pins[b] > 1 || disk[bufs[b].blockno] == latest[bufs[b].blockno]
      modifies this`bufs, this`pins
      ensures Valid()
      ensures pins == old(pins)[b := old(pins)[b] - 1]
      ensures bufs == old(bufs)[b := old(bufs)[b].(refcnt := old(bufs)[b].refcnt - 1)]
    {
      BufferChangeCoherent(bufs, refs, pins, disk, latest, b, bufs[b].(refcnt := bufs[b].refcnt - 1),
                           refs[b], pins[b] - 1);
      assert refs == refs[b := refs[b]];
      pins := pins[b := pins[b] - 1];
      bufs := bufs[b := bufs[b].(refcnt := bufs[b].refcnt - 1)];
    }
  }
}
