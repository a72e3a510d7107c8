/**
 pipewrite, piperead and pipeclose (pipe.c): a ring of 512 bytes and two
 32-bit counters that wrap.  A method is one section under pi->lock, from
 acquire to release.
 */
module Pipes {
  import opened Wrappers
  import opened Params

  const PIPESIZE: nat := 512

  /** How a section ends: the call returns r, or sleeps and comes back with another section. */
  datatype Outcome = Returns(r: int) | Sleeps

  lemma Apart(a: nat, b: nat)
    requires b < a < b + PIPESIZE
    ensures a % PIPESIZE != b % PIPESIZE
  {
    assert a == a / PIPESIZE * PIPESIZE + a % PIPESIZE && b == b / PIPESIZE * PIPESIZE + b % PIPESIZE;
  }

  /** Reducing a count modulo 2^32 does not change its place in the ring. */
  lemma WrapKeepsPlace(n: nat)
    ensures n % UINT % PIPESIZE == n % PIPESIZE
  {
    assert n == n / UINT * UINT + n % UINT;
    assert n / UINT * UINT == n / UINT * 0x80_0000 * PIPESIZE;
  }

  /** The two tests of the code, on wrapped counters, decide the true occupancy. */
  lemma Occupancy(w: nat, r: nat)
    requires r <= w <= r + PIPESIZE
    ensures w % UINT == (r % UINT + PIPESIZE) % UINT <==> w == r + PIPESIZE
    ensures r % UINT == w % UINT <==> w == r
  {
    assert w == w / UINT * UINT + w % UINT && r == r / UINT * UINT + r % UINT;
    if w % UINT == r % UINT { assert w - r == (w / UINT - r / UINT) * UINT; }
    if w % UINT == (r % UINT + PIPESIZE) % UINT { Congruent(w, r + PIPESIZE); }
  }

  lemma Congruent(w: nat, t: nat)
    requires w <= t <= w + PIPESIZE && w % UINT == ((t - PIPESIZE) % UINT + PIPESIZE) % UINT
    ensures w == t
  {
    var s := t - PIPESIZE;
    var q := s / UINT;
    assert s == q * UINT + s % UINT;
    assert t % UINT == (s % UINT + PIPESIZE) % UINT by {
      assert t == q * UINT + (s % UINT + PIPESIZE);
    }
    assert t == t / UINT * UINT + t % UINT && w == w / UINT * UINT + w % UINT;
    assert t - w == (t / UINT - w / UINT) * UINT;
  }

  class Pipe {
    const data: array<Byte>
    var nread: nat
    var nwrite: nat
    var readopen: bool
    var writeopen: bool
    ghost var accepted: seq<Byte>    // every byte a writer put in, in order
    ghost var delivered: seq<Byte>   // every byte a reader took out, in order

    /** Delivered bytes are a prefix of the accepted ones, and the ring holds the rest. */
    ghost predicate Valid()
      reads this, data
    {
      && data.Length == PIPESIZE
      && |delivered| <= |accepted| <= |delivered| + PIPESIZE && delivered == accepted[..|delivered|]
      && nwrite == |accepted| % UINT && nread == |delivered| % UINT
      && forall k :: |delivered| <= k < |accepted| ==> data[k % PIPESIZE] == accepted[k]
    }

    constructor ()
      ensures Valid() && fresh(data) && accepted == [] && delivered == [] && readopen && writeopen
    {
      data := new Byte[PIPESIZE];
      nread, nwrite, readopen, writeopen, accepted, delivered := 0, 0, true, true, [], [];
    }

    /** The ring has room exactly when fewer than 512 bytes are waiting. */
    method Put(ch: Byte)
      requires Valid() && |accepted| < |delivered| + PIPESIZE
      modifies this`nwrite, this`accepted, data
      ensures Valid() && accepted == old(accepted) + [ch]
    {
      ghost var a := |accepted|;
      WrapKeepsPlace(a);
      forall k | |delivered| <= k < a ensures k % PIPESIZE != a % PIPESIZE { Apart(a, k); }
      data[nwrite % PIPESIZE] := ch;
      nwrite := (nwrite + 1) % UINT;
      accepted := accepted + [ch];
    }

    /** The oldest waiting byte. */
    method First() returns (ch: Byte)
      requires Valid() && |delivered| < |accepted|
      ensures ch == accepted[|delivered|]
    {
      WrapKeepsPlace(|delivered|);
      ch := data[nread % PIPESIZE];
    }

    method Drop()
      requires Valid() && |delivered| < |accepted|
      modifies this`nread, this`delivered
      ensures Valid() && delivered == old(delivered) + [accepted[|old(delivered)|]]
    {
      nread := (nread + 1) % UINT;
      delivered := delivered + [accepted[|delivered|]];
    }

    /**
     A section of pipewrite that starts at byte i.  src[k] is None when copyin
     of byte k fails; from byte killedAt on the writer finds itself killed.
     */
    method WriteSection(src: seq<Option<Byte>>, i: nat, killedAt: nat) returns (o: Outcome, j: nat)
      requires Valid() && i <= |src|
      modifies this`nwrite, this`accepted, data
      ensures Valid() && i <= j <= |src| && Readable(src, i, j) && accepted == old(accepted) + Values(src, i, j)
      ensures i < j ==> readopen && j <= killedAt
      ensures j == |src| ==> o == Returns(j)
      ensures j < |src| && (!readopen || killedAt <= j) ==> o == Returns(-1)
      ensures j < |src| && readopen && j < killedAt && |accepted| == |delivered| + PIPESIZE ==> o == Sleeps
      ensures j < |src| && readopen && j < killedAt && |accepted| < |delivered| + PIPESIZE ==>
        src[j].None? && o == Returns(if j == 0 then -1 else j)
    {
      j := i;
      while j < |src|
        invariant Valid() && i <= j <= |src| && Readable(src, i, j) && accepted == old(accepted) + Values(src, i, j)
        invariant i < j ==> readopen && j <= killedAt
      {
        Occupancy(|accepted|, |delivered|);
        if !readopen || killedAt <= j { return Returns(-1), j; }
        if nwrite == (nread + PIPESIZE) % UINT { return Sleeps, j; }
        if src[j].None? { return Returns(if j == 0 then -1 else j), j; }
        Put(src[j].value);
        assert Values(src, i, j + 1) == Values(src, i, j) + [src[j].value];
        j := j + 1;
      }
      return Returns(j), j;
    }

    /**
     A section of piperead: wait, or copy out up to n bytes.  copyout of the
     byte numbered failAt fails.
     */
    method ReadSection(n: nat, failAt: nat, killed: bool) returns (o: Outcome, out: seq<Byte>)
      requires Valid()
      modifies this`nread, this`delivered
      ensures Valid() && delivered == old(delivered) + out && |out| <= n
      ensures out == accepted[|old(delivered)|..|delivered|]
      ensures o.Sleeps? <==> |old(delivered)| == |accepted| && writeopen && !killed
      ensures o.Returns? && o.r >= 0 ==> o.r == |out| && (|out| == n || |delivered| == |accepted| || |out| == failAt)
      ensures o.Returns? && o.r < 0 ==> o.r == -1 && out == []
      ensures n > 0 ==> (o == Returns(0) <==> |old(delivered)| == |accepted| && !writeopen)
    {
      TestsAgree();
      if nread == nwrite && writeopen {
        return if killed then Returns(-1) else Sleeps, [];
      }
      var r;
      r, out := CopyOut(n, failAt);
      WasNext(|old(delivered)|);
      o := Returns(r);
    }

    /** The copy loop of piperead. */
    method CopyOut(n: nat, failAt: nat) returns (r: int, out: seq<Byte>)
      requires Valid()
      modifies this`nread, this`delivered
      ensures Valid() && delivered == old(delivered) + out
      ensures r == if n > 0 && failAt == 0 && |old(delivered)| < |accepted| then -1 else |out|
      ensures |out| == Min(n, Min(failAt, if |old(delivered)| < |accepted| then |accepted| - |old(delivered)| else 0))
    {
      hide Valid;
      out := [];
      TestsAgree();
      while |out| < n
        invariant Valid() && |out| <= n && delivered == old(delivered) + out && |out| <= failAt
        invariant |delivered| <= |accepted|
      {
        TestsAgree();
        if nread == nwrite { break; }
        var ch := First();
        if |out| == failAt { return if |out| == 0 then -1 else |out|, out; }
        Drop();
        out := out + [ch];
      }
      r := |out|;
    }

    lemma TestsAgree()
      requires Valid()
      ensures nread == nwrite <==> |delivered| == |accepted|
      ensures nwrite == (nread + PIPESIZE) % UINT <==> |accepted| == |delivered| + PIPESIZE
      ensures |delivered| <= |accepted| <= |delivered| + PIPESIZE
    {
      Occupancy(|accepted|, |delivered|);
    }

    lemma WasNext(before: nat)
      requires Valid() && before <= |delivered|
      ensures delivered[before..] == accepted[before..|delivered|]
    {
    }

    /** pipeclose; both ends closed, the page is freed. */
    method Close(writable: bool) returns (freed: bool)
      requires Valid()
      modifies this`readopen, this`writeopen
      ensures Valid() && readopen == (old(readopen) && writable) && writeopen == (old(writeopen) && !writable)
      ensures freed <==> !readopen && !writeopen
    {
      if writable { writeopen := false; } else { readopen := false; }
      freed := !readopen && !writeopen;
    }
  }

  predicate Readable(src: seq<Option<Byte>>, i: nat, j: nat)
    requires i <= j <= |src|
  {
    forall k :: i <= k < j ==> src[k].Some?
  }

  function Values(src: seq<Option<Byte>>, i: nat, j: nat): (r: seq<Byte>)
    requires i <= j <= |src| && Readable(src, i, j)
    ensures |r| == j - i && forall k :: i <= k < j ==> r[k - i] == src[k].value
  {
    if i == j then [] else Values(src, i, j - 1) + [src[j - 1].value]
  }

  /** A call in progress or, with a result, finished. */
  datatype Call =
    | Writer(src: seq<Option<Byte>>, at: nat, res: Option<int>)
    | Reader(n: nat, got: seq<Byte>, res: Option<int>)

  /** One section of call p, with what the outside decides in it; or a close. */
  datatype Turn = Turn(p: nat, killedAt: nat, failAt: nat, killed: bool) | CloseEnd(writable: bool)

  type Log = seq<(nat, seq<Byte>)>

  ghost function All(log: Log): seq<Byte> {
    if log == [] then [] else All(log[..|log| - 1]) + log[|log| - 1].1
  }

  /** The part of a log that call p made. */
  ghost function Of(log: Log, p: nat): seq<Byte> {
    if log == [] then [] else Of(log[..|log| - 1], p) + (if log[|log| - 1].0 == p then log[|log| - 1].1 else [])
  }

  lemma LogAppend(log: Log, p: nat, b: seq<Byte>)
    ensures All(log + [(p, b)]) == All(log) + b
    ensures forall q: nat :: Of(log + [(p, b)], q) == Of(log, q) + (if q == p then b else [])
  {
    assert (log + [(p, b)])[..|log|] == log;
  }

  lemma NoLog()
    ensures All([]) == [] && forall p: nat :: Of([], p) == []
  {
  }

  predicate CallOk(c: Call) {
    c.Writer? ==> c.at <= |c.src| && Readable(c.src, 0, c.at)
  }

  lemma ValuesJoin(src: seq<Option<Byte>>, i: nat, j: nat)
    requires i <= j <= |src| && Readable(src, 0, i) && Readable(src, i, j)
    ensures Readable(src, 0, j) && Values(src, 0, j) == Values(src, 0, i) + Values(src, i, j)
  {
  }

  /** What call c, the p-th, has put in or taken out so far is what the two logs say of it. */
  ghost predicate Tallied(c: Call, p: nat, puts: Log, takes: Log) {
    && CallOk(c)
    && (c.Writer? ==> Of(puts, p) == Values(c.src, 0, c.at) && Of(takes, p) == [])
    && (c.Reader? ==> Of(takes, p) == c.got && Of(puts, p) == [])
  }

  /** The next section of one call. */
  method TakeTurn(pipe: Pipe, c: Call, t: Turn) returns (c1: Call, put: seq<Byte>, take: seq<Byte>)
    requires pipe.Valid() && CallOk(c) && t.Turn?
    modifies pipe, pipe.data
    ensures pipe.Valid() && CallOk(c1) && pipe.accepted == old(pipe.accepted) + put
      && pipe.delivered == old(pipe.delivered) + take
    ensures c.res.Some? ==> c1 == c && put == [] && take == []
    ensures c.Writer? ==>
      c1.Writer? && c1.src == c.src && take == [] && Values(c.src, 0, c1.at) == Values(c.src, 0, c.at) + put
    ensures c.Reader? ==> c1.Reader? && c1.n == c.n && put == [] && c1.got == c.got + take
  {
    put, take := [], [];
    if c.res.Some? { return c, [], []; }
    match c
    case Writer(src, at, _) =>
      var o, j := pipe.WriteSection(src, at, t.killedAt);
      ValuesJoin(src, at, j);
      put := Values(src, at, j);
      c1 := Writer(src, j, if o.Returns? then Some(o.r) else None);
    case Reader(n, got, _) =>
      var o;
      o, take := pipe.ReadSection(n, t.failAt, t.killed);
      c1 := Reader(n, got + take, if o.Returns? then Some(o.r) else None);
  }

  /**
   Any number of calls, interleaved section by section in any order: the pipe
   stays sound (Valid), and every byte of every writer goes in once and in its
   writer's order, every byte taken out goes to one reader.
   */
  method Run(pipe: Pipe, calls0: seq<Call>, turns: seq<Turn>)
    returns (calls: seq<Call>, ghost puts: Log, ghost takes: Log)
    requires pipe.Valid() && (forall p :: 0 <= p < |calls0| ==> Tallied(calls0[p], p, [], []))
    modifies pipe, pipe.data
    ensures pipe.Valid() && |calls| == |calls0|
    ensures pipe.accepted == old(pipe.accepted) + All(puts) && pipe.delivered == old(pipe.delivered) + All(takes)
    ensures forall p :: 0 <= p < |calls| ==> Tallied(calls[p], p, puts, takes)
  {
    hide Of, All, Values, Readable;
    calls, puts, takes := calls0, [], [];
    NoLog();
    var k := 0;
    while k < |turns|
      invariant 0 <= k <= |turns| && pipe.Valid() && |calls| == |calls0|
      invariant pipe.accepted == old(pipe.accepted) + All(puts) && pipe.delivered == old(pipe.delivered) + All(takes)
      invariant forall p :: 0 <= p < |calls| ==> Tallied(calls[p], p, puts, takes)
    {
      var t := turns[k];
      if t.CloseEnd? {
        var _ := pipe.Close(t.writable);
      } else if t.p < |calls| {
        var c, put, take := TakeTurn(pipe, calls[t.p], t);
        LogAppend(puts, t.p, put);
        LogAppend(takes, t.p, take);
        calls, puts, takes := calls[t.p := c], puts + [(t.p, put)], takes + [(t.p, take)];
      }
      k := k + 1;
    }
  }
}
