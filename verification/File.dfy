/** filewrite and fileread of an inode file (file.c): chunks, one log operation each. */
module FileLayer {
  import opened Params
  import opened Inodes
  import opened FileBytes
  import opened Fs
  import LogProtocol

  lemma SpliceMore(s: seq<Byte>, off: nat, d: seq<Byte>, e: seq<Byte>)
    requires off <= |s|
    ensures off + |d| <= |Splice(s, off, d)|
    ensures Splice(Splice(s, off, d), off + |d|, e) == Splice(s, off, d + e)
  {
    var t := Splice(s, off, d);
    assert t[..off + |d|] == s[..off] + d;
    if off + |d + e| < |s| {
      assert t[off + |d| + |e|..] == s[off + |d| + |e|..];
    }
    assert s[..off] + d + e == s[..off] + (d + e);
  }

  lemma SpliceNothing(s: seq<Byte>, off: nat)
    requires off <= |s|
    ensures Splice(s, off, []) == s
  {
  }

  /** What a finished operation did to the log: blocks logged, and the most there were before a log_write. */
  datatype Op = Op(blocks: nat, peak: nat)

  /**
   log_write finds room whatever the other operations do, as long as this one
   has added no more blocks than a chunk had logged at any of its log_writes.
   */
  lemma LogWriteHasRoom(s: LogProtocol.State, p: nat, adds: bool, op: Op)
    requires LogProtocol.Inv(s) && LogProtocol.Enabled(s, LogProtocol.LogWrite(p, adds))
    requires s.pcs[p].used <= op.peak < MAXOPBLOCKS
    ensures !LogProtocol.Step(s, LogProtocol.LogWrite(p, adds)).pcs[p].Dead?
    ensures LogProtocol.Inv(LogProtocol.Step(s, LogProtocol.LogWrite(p, adds)))
  {
    LogProtocol.BudgetMeansRoom(s, p);
    LogProtocol.StepInv(s, LogProtocol.LogWrite(p, adds));
  }

  class File {
    const fs: FileSystem
    const inum: nat
    const readable: bool
    const writable: bool
    var off: nat
    ghost var ops: seq<Op>

    constructor (f: FileSystem, i: nat, r: bool, w: bool)
      ensures fs == f && inum == i && readable == r && writable == w && off == 0 && ops == []
    {
      fs, inum, readable, writable, off, ops := f, i, r, w, 0, [];
    }

    ghost predicate Ready()
      reads this, fs
    {
      fs.AllMapped() && inum < |fs.inodes| && off < UINT
    }

    ghost function Bytes(j: nat): seq<Byte>
      requires fs.AllMapped() && j < |fs.inodes|
      reads fs
    {
      Contents(fs.Img(), j)
    }

    /** Every other file reads as it does in m. */
    ghost predicate OthersKept(m: Image)
      reads this, fs
    {
      && Wellformed(m) && Wellformed(fs.Img()) && |m.inodes| == |fs.inodes|
      && forall j: nat :: j < |m.inodes| && j != inum ==> Contents(fs.Img(), j) == Contents(m, j)
    }

    /** No operation logged more than its share, and each log_write found part of the share unused. */
    ghost predicate WithinBudget()
      reads this
    {
      forall x :: 0 <= x < |ops| ==> ops[x].blocks <= MAXOPBLOCKS && ops[x].peak < MAXOPBLOCKS
    }

    /** begin_op, writei of one chunk, end_op. */
    method WriteChunk(chunk: seq<Byte>) returns (r: int)
      requires Ready() && |chunk| <= CHUNK && WithinBudget()
      modifies this, fs
      ensures Ready() && |fs.inodes| == |old(fs.inodes)| && WithinBudget() && |ops| == |old(ops)| + 1
      ensures fs.began == old(fs.Img()) && |fs.logged| <= MAXOPBLOCKS
      ensures -1 <= r <= |chunk| && off == old(off) + Max(r, 0)
      ensures r == -1 <==> Refused(old(fs.inodes[inum].size), old(off), |chunk|)
      ensures r == -1 ==> fs.Img() == old(fs.Img())
      ensures r >= 0 ==> Bytes(inum) == Splice(old(Bytes(inum)), old(off), chunk[..r])
      ensures 0 <= r < |chunk| ==> fs.Full()
      ensures OthersKept(old(fs.Img()))
    {
      hide Tree, Marked, Contents, Mapped, Splice;
      fs.logged, fs.peak, fs.began := {}, 0, fs.Img();
      ChunkFits(off, |chunk|);
      fs.SizeFits(inum);
      r := fs.Writei(inum, off, chunk);
      fs.SizeFits(inum);
      if r > 0 { off := off + r; }
      ops := ops + [Op(|fs.logged|, fs.peak)];
    }

    /** The loop of filewrite after done bytes have been written. */
    ghost predicate Progress(file: seq<Byte>, off0: nat, data: seq<Byte>, done: nat)
      reads this, fs
    {
      && Ready() && WithinBudget() && done <= |data| && off == off0 + done
      && (off0 <= |file| ==> Bytes(inum) == Splice(file, off0, data[..done]))
      && (off0 > |file| ==> Bytes(inum) == file && done == 0)
    }

    /** One round of the loop: how many bytes went in, and whether that was the whole chunk. */
    method Round(data: seq<Byte>, done: nat, ghost file: seq<Byte>, ghost off0: nat, ghost m: Image)
      returns (got: nat, whole: bool)
      requires Progress(file, off0, data, done) && done < |data| && OthersKept(m)
      modifies this, fs
      ensures Progress(file, off0, data, done + got) && OthersKept(m)
      ensures fs.began == old(fs.Img()) && |fs.logged| <= MAXOPBLOCKS
      ensures got <= Min(|data| - done, CHUNK) && (whole <==> got == Min(|data| - done, CHUNK))
      ensures !whole ==> fs.Full() || off0 > |file| || off0 + |data| > MAXBYTES
    {
      hide Tree, Marked, Contents, Mapped, Splice;
      var n1 := if |data| - done > CHUNK then CHUNK else |data| - done;
      RoundFacts(file, off0, data, done, n1);
      var r := WriteChunk(data[done..done + n1]);
      got := Max(r, 0);
      whole := r == n1;
      if r >= 0 { Extend(file, off0, data, done, n1, r); }
    }

    lemma Extend(file: seq<Byte>, off0: nat, data: seq<Byte>, done: nat, n: nat, r: nat)
      requires off0 <= |file| && r <= n && done + n <= |data|
      ensures off0 + done <= |Splice(file, off0, data[..done])|
      ensures Splice(Splice(file, off0, data[..done]), off0 + done, data[done..done + n][..r]) ==
        Splice(file, off0, data[..done + r])
    {
      assert data[done..done + n][..r] == data[done..done + r]
        && data[..done] + data[done..done + r] == data[..done + r];
      SpliceMore(file, off0, data[..done], data[done..done + r]);
    }

    lemma Start(data: seq<Byte>)
      requires Ready() && WithinBudget()
      ensures Progress(Bytes(inum), off, data, 0) && OthersKept(fs.Img())
    {
      assert data[..0] == [];
      if off <= |Bytes(inum)| { SpliceNothing(Bytes(inum), off); }
    }

    lemma RoundFacts(file: seq<Byte>, off0: nat, data: seq<Byte>, done: nat, n: nat)
      requires Progress(file, off0, data, done) && done + n <= |data| && n <= CHUNK
      ensures |Bytes(inum)| == fs.inodes[inum].size <= MAXBYTES
      ensures Refused(fs.inodes[inum].size, off, n) ==> off0 > |file| || off0 + |data| > MAXBYTES
      ensures !Refused(fs.inodes[inum].size, off, n) ==> off0 <= |file|
    {
      fs.SizeFits(inum);
      if off0 <= |file| { SpliceMore(file, off0, data[..done], []); }
    }

    /** filewrite: the bytes that went in are spliced into the file, and every operation fits its log budget. */
    method Filewrite(data: seq<Byte>) returns (ret: int, ghost done: nat)
      requires Ready() && WithinBudget() && |data| < 0x8000_0000
      modifies this, fs
      ensures Ready() && WithinBudget() && |fs.inodes| == |old(fs.inodes)|
      ensures done <= |data| && off == old(off) + done
      ensures ret == if writable && done == |data| then |data| else -1
      ensures writable && done < |data| ==>
        fs.Full() || old(off) > |old(Bytes(inum))| || old(off) + |data| > MAXBYTES
      ensures old(off) <= |old(Bytes(inum))| ==> Bytes(inum) == Splice(old(Bytes(inum)), old(off), data[..done])
      ensures old(off) > |old(Bytes(inum))| ==> Bytes(inum) == old(Bytes(inum)) && done == 0
      ensures OthersKept(old(fs.Img()))
    {
      hide Tree, Marked, Contents, Mapped, Splice;
      ghost var file, off0, m := Bytes(inum), off, fs.Img();
      Start(data);
      if !writable { return -1, 0; }
      var i := 0;
      while i < |data|
        invariant Progress(file, off0, data, i) && OthersKept(m)
      {
        var got, whole := Round(data, i, file, off0, m);
        if !whole { return -1, i + got; }
        i := i + got;
      }
      return i, i;
    }

    /** fileread: the bytes at the cursor, which moves past them; no block is allocated or logged. */
    method Fileread(n: nat) returns (ok: bool, out: seq<Byte>)
      requires Ready() && n < 0x8000_0000
      modifies this, fs
      ensures Ready() && ok == readable && fs.Img() == old(fs.Img()) && fs.logged == old(fs.logged)
      ensures off == old(off) + |out|
      ensures ok && old(off) <= |Bytes(inum)| ==> out == Bytes(inum)[old(off)..Min(old(off) + n, |Bytes(inum)|)]
      ensures !ok || old(off) > |Bytes(inum)| ==> out == []
    {
      if !readable { return false, []; }
      fs.SizeFits(inum);
      out := fs.Readi(inum, off, n);
      if |out| > 0 { off := off + |out|; }
      return true, out;
    }
  }
}
