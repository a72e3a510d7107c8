/** The stamps stand for four first-in first-out queues. */
module MlfqQueues {
  import opened Wrappers
  import opened Mlfq

  predicate Member(procs: seq<Proc>, k: nat, p: nat) {
    p < |procs| && procs[p].state == RUNNABLE && procs[p].prio == k
  }

  predicate Ordered(procs: seq<Proc>, q: seq<nat>) {
    && (forall i :: 0 <= i < |q| ==> q[i] < |procs|)
    && (forall i, j :: 0 <= i < j < |q| ==> procs[q[i]].qtime < procs[q[j]].qtime)
  }

  /** q lists the RUNNABLE processes of level k by stamp. */
  ghost predicate IsQueue(procs: seq<Proc>, k: nat, q: seq<nat>) {
    Ordered(procs, q) && forall p: nat :: p in q <==> Member(procs, k, p)
  }

  /** p goes where its stamp puts it. */
  function Insert(procs: seq<Proc>, q: seq<nat>, p: nat): seq<nat>
    requires p < |procs| && forall i :: 0 <= i < |q| ==> q[i] < |procs|
  {
    if q == [] || procs[p].qtime < procs[q[0]].qtime then [p] + q else [q[0]] + Insert(procs, q[1..], p)
  }

  /** The queue of level k among the first n slots. */
  function QueueTo(procs: seq<Proc>, k: nat, n: nat): (q: seq<nat>)
    requires n <= |procs|
    ensures forall i :: 0 <= i < |q| ==> q[i] < |procs|
  {
    if n == 0 then [] else
      var q := QueueTo(procs, k, n - 1);
      if Member(procs, k, n - 1) then
        InsertElements(procs, q, n - 1);
        Insert(procs, q, n - 1)
      else q
  }

  function Queue(procs: seq<Proc>, k: nat): seq<nat> {
    QueueTo(procs, k, |procs|)
  }

  lemma {:induction false} InsertElements(procs: seq<Proc>, q: seq<nat>, p: nat)
    requires p < |procs| && forall i :: 0 <= i < |q| ==> q[i] < |procs|
    ensures forall x :: x in Insert(procs, q, p) <==> x in q || x == p
    ensures forall i :: 0 <= i < |Insert(procs, q, p)| ==> Insert(procs, q, p)[i] < |procs|
  {
    if q == [] || procs[p].qtime < procs[q[0]].qtime {
    } else {
      InsertElements(procs, q[1..], p);
      forall x ensures x in Insert(procs, q, p) <==> x in q || x == p {
        assert x in q <==> x == q[0] || x in q[1..];
      }
      var r := Insert(procs, q, p);
      forall i | 0 <= i < |r| ensures r[i] < |procs| {
        assert r[i] in r;
      }
    }
  }

  lemma {:induction false} InsertOrdered(procs: seq<Proc>, q: seq<nat>, p: nat)
    requires p < |procs| && Ordered(procs, q) && forall i :: 0 <= i < |q| ==> procs[q[i]].qtime != procs[p].qtime
    ensures Ordered(procs, Insert(procs, q, p))
  {
    InsertElements(procs, q, p);
    if q == [] || procs[p].qtime < procs[q[0]].qtime {
    } else {
      InsertOrdered(procs, q[1..], p);
      InsertElements(procs, q[1..], p);
      var r := Insert(procs, q[1..], p);
      forall i | 0 <= i < |r| ensures procs[q[0]].qtime < procs[r[i]].qtime {
        assert r[i] in r;
        if r[i] != p { assert r[i] in q[1..]; }
      }
    }
  }

  lemma {:induction false} QueueToOk(procs: seq<Proc>, counter: nat, k: nat, n: nat)
    requires n <= |procs| && StampsOk(procs, counter)
    ensures Ordered(procs, QueueTo(procs, k, n))
    ensures forall p: nat :: p in QueueTo(procs, k, n) <==> p < n && Member(procs, k, p)
  {
    if n > 0 {
      QueueToOk(procs, counter, k, n - 1);
      QueueToStep(procs, counter, k, n);
    }
  }

  lemma QueueToStep(procs: seq<Proc>, counter: nat, k: nat, n: nat)
    requires 0 < n <= |procs| && StampsOk(procs, counter) && Ordered(procs, QueueTo(procs, k, n - 1))
    requires forall p: nat :: p in QueueTo(procs, k, n - 1) <==> p < n - 1 && Member(procs, k, p)
    ensures Ordered(procs, QueueTo(procs, k, n))
    ensures forall p: nat :: p in QueueTo(procs, k, n) <==> p < n && Member(procs, k, p)
  {
    hide Insert, Ordered, StampsOk;
    var q, r := QueueTo(procs, k, n - 1), QueueTo(procs, k, n);
    AllMembers(procs, k, n - 1, q);
    if Member(procs, k, n - 1) {
      assert r == Insert(procs, q, n - 1);
      FreshStamp(procs, counter, q, n - 1);
      InsertOrdered(procs, q, n - 1);
      InsertElements(procs, q, n - 1);
      assert forall p: nat :: p in r <==> p in q || p == n - 1;
    } else {
      assert r == q;
    }
  }

  lemma AllMembers(procs: seq<Proc>, k: nat, n: nat, q: seq<nat>)
    requires forall p: nat :: p in q <==> p < n && Member(procs, k, p)
    ensures forall i :: 0 <= i < |q| ==> q[i] < n && Member(procs, k, q[i])
  {
    forall i | 0 <= i < |q| ensures q[i] < n && Member(procs, k, q[i]) {
      assert q[i] in q;
    }
  }

  lemma FreshStamp(procs: seq<Proc>, counter: nat, q: seq<nat>, p: nat)
    requires StampsOk(procs, counter) && p < |procs| && procs[p].state == RUNNABLE
    requires forall i :: 0 <= i < |q| ==> q[i] < p && procs[q[i]].state == RUNNABLE
    ensures forall i :: 0 <= i < |q| ==> procs[q[i]].qtime != procs[p].qtime
  {
  }

  lemma QueueOk(procs: seq<Proc>, counter: nat, k: nat)
    requires StampsOk(procs, counter)
    ensures IsQueue(procs, k, Queue(procs, k))
  {
    QueueToOk(procs, counter, k, |procs|);
  }

  lemma HasHead(q: seq<nat>)
    ensures q != [] ==> q[0] in q
  {
  }

  /** An ordered list is determined by its elements. */
  lemma {:induction false} OrderedUnique(procs: seq<Proc>, q: seq<nat>, r: seq<nat>)
    requires Ordered(procs, q) && Ordered(procs, r) && forall p :: p in q <==> p in r
    ensures q == r
  {
    if q == [] {
      HasHead(r);
    } else {
      assert q[0] in q;
      assert r[0] in r;
      HeadsAgree(procs, q, r);
      forall p ensures p in q[1..] <==> p in r[1..] {
        TailElements(procs, q, p);
        TailElements(procs, r, p);
      }
      OrderedUnique(procs, q[1..], r[1..]);
      assert q == [q[0]] + q[1..] && r == [r[0]] + r[1..];
    }
  }

  lemma HeadsAgree(procs: seq<Proc>, q: seq<nat>, r: seq<nat>)
    requires Ordered(procs, q) && Ordered(procs, r) && q != [] && r != [] && q[0] in r && r[0] in q
    ensures q[0] == r[0]
  {
  }

  lemma TailElements(procs: seq<Proc>, q: seq<nat>, p: nat)
    requires Ordered(procs, q) && q != []
    ensures p in q[1..] <==> p in q && p != q[0]
  {
    if p in q && p != q[0] {
      var i :| 0 <= i < |q| && q[i] == p;
      assert q[1..][i - 1] == p;
    }
  }

  lemma QueueUnique(procs: seq<Proc>, counter: nat, k: nat, q: seq<nat>)
    requires StampsOk(procs, counter) && IsQueue(procs, k, q)
    ensures Queue(procs, k) == q
  {
    QueueOk(procs, counter, k);
    OrderedUnique(procs, q, Queue(procs, k));
  }

  // The simple machine: four queues.

  type Queues = seq<seq<nat>>

  function QueuesOf(s: State): (qs: Queues)
    ensures |qs| == LEVELS
  {
    [Queue(s.procs, 0), Queue(s.procs, 1), Queue(s.procs, 2), Queue(s.procs, 3)]
  }

  function Append(qs: Queues, k: nat, p: nat): Queues
    requires k < |qs|
  {
    qs[k := qs[k] + [p]]
  }

  function Prepend(qs: Queues, k: nat, p: nat): Queues
    requires k < |qs|
  {
    qs[k := [p] + qs[k]]
  }

  /** The first non-empty queue, |qs| if there is none. */
  function First(qs: Queues): (k: nat)
    ensures k <= |qs| && (k < |qs| ==> qs[k] != []) && forall j :: 0 <= j < k ==> qs[j] == []
  {
    if qs == [] || qs[0] != [] then 0 else 1 + First(qs[1..])
  }

  /** The RUNNABLE processes among the first n slots, in table order. */
  function Runnables(procs: seq<Proc>, n: nat): seq<nat>
    requires n <= |procs|
  {
    if n == 0 then [] else
      Runnables(procs, n - 1) + if procs[n - 1].state == RUNNABLE then [n - 1] else []
  }

  /** A boost: one queue, in table order. */
  function BoostedQueues(s: State): (qs: Queues)
    ensures |qs| == LEVELS
  {
    [Runnables(s.procs, |s.procs|), [], [], []]
  }

  /** What a timer tick does to the queues when process p runs at level prio with `used` ticks on its slice. */
  function TickQueues(qs: Queues, p: nat, prio: nat, used: nat): Queues
    requires |qs| == LEVELS && prio < LEVELS
  {
    if used + 1 >= Slice(prio) then Append(qs, if prio < LEVELS - 1 then prio + 1 else prio, p)
    else if First(qs) < prio then Prepend(qs, prio, p)
    else qs
  }

  /** One event on the four queues. */
  function QueuesAfter(s: State, e: Event, qs: Queues): Queues
    requires |qs| == LEVELS && Inv(s) && Enabled(s, e)
  {
    match e
    case Start(p) => Append(qs, 0, p)
    case Wake(p) => Append(qs, s.procs[p].prio, p)
    case Timer =>
      if BoostDue(s.(ticks := (s.ticks + 1) % WRAP)) then TickQueues(BoostedQueues(s), s.cur.value, 0, 0)
      else TickQueues(qs, s.cur.value, s.procs[s.cur.value].prio, s.procs[s.cur.value].used)
    case Schedule => if First(qs) < LEVELS then qs[First(qs) := qs[First(qs)][1..]] else qs
    case _ => qs
  }

  /** p, RUNNABLE at level k with a stamp above all others there, is the last of its queue. */
  lemma JoinsTail(procs: seq<Proc>, counter: nat, procs': seq<Proc>, counter': nat, k: nat, p: nat)
    requires StampsOk(procs, counter) && StampsOk(procs', counter') && |procs'| == |procs| && p < |procs|
    requires procs[p].state != RUNNABLE && Member(procs', k, p) && procs'[p].qtime >= counter
    requires forall i :: 0 <= i < |procs| && i != p ==> procs'[i] == procs[i]
    ensures Queue(procs', k) == Queue(procs, k) + [p]
    ensures forall j :: j != k ==> Queue(procs', j) == Queue(procs, j)
  {
    QueueOk(procs, counter, k);
    var q := Queue(procs, k);
    assert forall i :: 0 <= i < |q| ==> q[i] in q;
    QueueUnique(procs', counter', k, q + [p]);
    forall j | j != k ensures Queue(procs', j) == Queue(procs, j) {
      OtherQueue(procs, counter, procs', counter', j, p);
    }
  }

  /** Changing p does not touch a queue that p is in neither before nor after. */
  lemma OtherQueue(procs: seq<Proc>, counter: nat, procs': seq<Proc>, counter': nat, j: nat, p: nat)
    requires StampsOk(procs, counter) && StampsOk(procs', counter') && |procs'| == |procs| && p < |procs|
    requires !Member(procs, j, p) && !Member(procs', j, p)
    requires forall i :: 0 <= i < |procs| && i != p ==> procs'[i] == procs[i]
    ensures Queue(procs', j) == Queue(procs, j)
  {
    QueueOk(procs, counter, j);
    var q := Queue(procs, j);
    assert forall i :: 0 <= i < |q| ==> q[i] in q;
    QueueUnique(procs', counter', j, q);
  }

  lemma JoinsHead(procs: seq<Proc>, counter: nat, procs': seq<Proc>, counter': nat, k: nat, p: nat)
    requires StampsOk(procs, counter) && StampsOk(procs', counter') && |procs'| == |procs| && p < |procs|
    requires procs[p].state != RUNNABLE && Member(procs', k, p)
    requires forall i :: 0 <= i < |procs| && Member(procs, k, i) ==> procs'[p].qtime < procs[i].qtime
    requires forall i :: 0 <= i < |procs| && i != p ==> procs'[i] == procs[i]
    ensures Queue(procs', k) == [p] + Queue(procs, k)
    ensures forall j :: j != k ==> Queue(procs', j) == Queue(procs, j)
  {
    QueueOk(procs, counter, k);
    var q := Queue(procs, k);
    assert forall i :: 0 <= i < |q| ==> q[i] in q;
    QueueUnique(procs', counter', k, [p] + q);
    forall j | j != k ensures Queue(procs', j) == Queue(procs, j) {
      OtherQueue(procs, counter, procs', counter', j, p);
    }
  }

  lemma LeavesHead(procs: seq<Proc>, counter: nat, procs': seq<Proc>, counter': nat, k: nat, p: nat)
    requires StampsOk(procs, counter) && StampsOk(procs', counter') && |procs'| == |procs| && p < |procs|
    requires Queue(procs, k) != [] && p == Queue(procs, k)[0] && procs'[p].state != RUNNABLE
    requires forall i :: 0 <= i < |procs| && i != p ==> procs'[i] == procs[i]
    ensures Queue(procs', k) == Queue(procs, k)[1..]
    ensures forall j :: j != k ==> Queue(procs', j) == Queue(procs, j)
  {
    QueueOk(procs, counter, k);
    var q := Queue(procs, k);
    assert q[0] in q;
    forall x: nat ensures x in q[1..] <==> Member(procs', k, x) {
      TailElements(procs, q, x);
    }
    forall i | 0 <= i < |q[1..]| ensures q[1..][i] != p && q[1..][i] in q {
      assert q[1..][i] in q[1..];
      TailElements(procs, q, q[1..][i]);
    }
    QueueUnique(procs', counter', k, q[1..]);
    forall j | j != k ensures Queue(procs', j) == Queue(procs, j) {
      OtherQueue(procs, counter, procs', counter', j, p);
    }
  }

  /** The scheduler's pick is the head of the first non-empty queue. */
  lemma BestIsHead(s: State)
    requires Inv(s)
    ensures var qs, b := QueuesOf(s), BestTo(s.procs, |s.procs|);
      if First(qs) < LEVELS then b == Some(qs[First(qs)][0]) else b.None?
  {
    var qs, b := QueuesOf(s), BestTo(s.procs, |s.procs|);
    BestIsLeast(s.procs, |s.procs|);
    hide BestTo, Queue;
    var k := First(qs);
    if k < LEVELS {
      HeadIsRunnable(s, k);
      HeadIsBest(s, k, b.value);
    } else {
      forall i | 0 <= i < NPROC ensures s.procs[i].state != RUNNABLE {
        if s.procs[i].state == RUNNABLE { RunnableIsQueued(s, i); }
      }
    }
  }

  lemma HeadIsRunnable(s: State, k: nat)
    requires Inv(s) && k < LEVELS && QueuesOf(s)[k] != []
    ensures QueuesOf(s)[k][0] < NPROC && s.procs[QueuesOf(s)[k][0]].state == RUNNABLE
    ensures s.procs[QueuesOf(s)[k][0]].prio == k
  {
    QueueOk(s.procs, s.counter, k);
    HasHead(QueuesOf(s)[k]);
  }

  lemma RunnableIsQueued(s: State, i: nat)
    requires Inv(s) && i < NPROC && s.procs[i].state == RUNNABLE
    ensures s.procs[i].prio < LEVELS && i in QueuesOf(s)[s.procs[i].prio]
  {
    QueueOk(s.procs, s.counter, s.procs[i].prio);
  }

  lemma HeadIsBest(s: State, k: nat, b: nat)
    requires Inv(s) && k < LEVELS && QueuesOf(s)[k] != [] && forall j :: 0 <= j < k ==> QueuesOf(s)[j] == []
    requires b < NPROC && s.procs[b].state == RUNNABLE
    requires forall i :: 0 <= i < NPROC && s.procs[i].state == RUNNABLE ==> !Before(s.procs[i], s.procs[b])
    ensures b == QueuesOf(s)[k][0]
  {
    var q, j := Queue(s.procs, k), s.procs[b].prio;
    QueueOk(s.procs, s.counter, k);
    QueueOk(s.procs, s.counter, j);
    assert q[0] in q;
    assert b in QueuesOf(s)[j];
    assert j == k;
    var i :| 0 <= i < |q| && q[i] == b;
  }

  lemma {:induction false} RunnablesOk(procs: seq<Proc>, n: nat)
    requires n <= |procs|
    ensures forall p: nat :: p in Runnables(procs, n) <==> p < n && procs[p].state == RUNNABLE
    ensures forall i, j :: 0 <= i < j < |Runnables(procs, n)| ==> Runnables(procs, n)[i] < Runnables(procs, n)[j]
  {
    if n > 0 {
      RunnablesOk(procs, n - 1);
      var r := Runnables(procs, n - 1);
      assert forall i :: 0 <= i < |r| ==> r[i] in r;
    }
  }

  /** After a boost there is one queue, in table order. */
  lemma BoostMakesOneQueue(s: State, r: State)
    requires |s.procs| == NPROC && Boosted(s, r, NPROC) && StampsOk(r.procs, r.counter)
    ensures QueuesOf(r) == BoostedQueues(s)
  {
    var q := Runnables(s.procs, NPROC);
    RunnablesOk(s.procs, NPROC);
    assert forall i :: 0 <= i < |q| ==> q[i] in q;
    QueueUnique(r.procs, r.counter, 0, q);
    BoostEmpties(s, r, 1);
    BoostEmpties(s, r, 2);
    BoostEmpties(s, r, 3);
  }

  lemma BoostEmpties(s: State, r: State, k: nat)
    requires |s.procs| == NPROC && Boosted(s, r, NPROC) && StampsOk(r.procs, r.counter) && k > 0
    ensures Queue(r.procs, k) == []
  {
    QueueUnique(r.procs, r.counter, k, []);
  }

  lemma OutrankedIffFirst(s: State, prio: nat)
    requires |s.procs| == NPROC && StampsOk(s.procs, s.counter) && prio < LEVELS
    requires LevelsOk(s.procs)
    ensures Outranked(s.procs, prio) <==> First(QueuesOf(s)) < prio
  {
    var qs := QueuesOf(s);
    forall k | 0 <= k < LEVELS ensures IsQueue(s.procs, k, qs[k]) {
      QueueOk(s.procs, s.counter, k);
    }
    if First(qs) < prio {
      var p := qs[First(qs)][0];
      assert p in qs[First(qs)];
      assert s.procs[p].state == RUNNABLE && s.procs[p].prio < prio;
    }
    if Outranked(s.procs, prio) {
      var p :| 0 <= p < |s.procs| && s.procs[p].state == RUNNABLE && s.procs[p].prio < prio;
      assert p in qs[s.procs[p].prio];
    }
  }

  /** Only process p has changed, and is RUNNABLE neither before nor after. */
  lemma QueuesUnchanged(s: State, t: State, p: nat)
    requires |s.procs| == |t.procs| == NPROC && StampsOk(s.procs, s.counter) && StampsOk(t.procs, t.counter)
      && p < NPROC
    requires s.procs[p].state != RUNNABLE && t.procs[p].state != RUNNABLE
    requires forall i :: 0 <= i < NPROC && i != p ==> t.procs[i] == s.procs[i]
    ensures QueuesOf(t) == QueuesOf(s)
  {
    OtherQueue(s.procs, s.counter, t.procs, t.counter, 0, p);
    OtherQueue(s.procs, s.counter, t.procs, t.counter, 1, p);
    OtherQueue(s.procs, s.counter, t.procs, t.counter, 2, p);
    OtherQueue(s.procs, s.counter, t.procs, t.counter, 3, p);
  }

  lemma StartWakeQueues(s: State, p: nat)
    requires Inv(s) && (In(s, p, USED) || In(s, p, SLEEPING))
    ensures QueuesOf(SetState(Enqueue(s, p), p, RUNNABLE)) == Append(QueuesOf(s), s.procs[p].prio, p)
  {
    var t, k := SetState(Enqueue(s, p), p, RUNNABLE), s.procs[p].prio;
    StartWakeInv(s, p);
    JoinsTail(s.procs, s.counter, t.procs, t.counter, k, p);
  }

  lemma ScheduleQueues(s: State)
    requires Inv(s) && s.cur.None? && BestTo(s.procs, |s.procs|).Some?
    ensures var qs := QueuesOf(s); var k := First(qs);
      k < LEVELS && Dispatch(s).cur == Some(qs[k][0]) && QueuesOf(Dispatch(s)) == qs[k := qs[k][1..]]
  {
    var qs, t := QueuesOf(s), Dispatch(s);
    BestIsHead(s);
    DispatchInv(s);
    var k := First(qs);
    LeavesHead(s.procs, s.counter, t.procs, t.counter, k, qs[k][0]);
  }

  /** The end of a tick, from the state after mlfq_maybe_boost. */
  lemma ChargeQueues(b: State, p: nat)
    requires Mostly(b) && b.cur == Some(p)
    requires !Exhausts(b.procs[p]) ==> CurOk(b)
    ensures var c, pr := Charge(b, p), b.procs[p];
      QueuesOf(if Exhausts(pr) || Outranked(c.procs, c.procs[p].prio) then Yield(c, p) else c)
      == TickQueues(QueuesOf(b), p, pr.prio, pr.used)
  {
    var c, pr, qs := Charge(b, p), b.procs[p], QueuesOf(b);
    ChargeInv(b, p);
    if Exhausts(pr) {
      ChargeExhausted(b, p);
    } else {
      QueuesUnchanged(b, c, p);
      OutrankedIffFirst(c, pr.prio);
      if Outranked(c.procs, pr.prio) {
        var y := Yield(c, p);
        YieldInv(c, p);
        JoinsHead(b.procs, b.counter, y.procs, y.counter, pr.prio, p);
      }
    }
  }

  lemma ChargeExhausted(b: State, p: nat)
    requires Mostly(b) && b.cur == Some(p) && Exhausts(b.procs[p])
    ensures QueuesOf(Yield(Charge(b, p), p)) ==
            Append(QueuesOf(b), if b.procs[p].prio < LEVELS - 1 then b.procs[p].prio + 1 else b.procs[p].prio, p)
  {
    var c := Charge(b, p);
    ChargeInv(b, p);
    YieldInv(c, p);
    var y := Yield(c, p);
    JoinsTail(b.procs, b.counter, y.procs, y.counter, y.procs[p].prio, p);
  }

  lemma TimerQueues(s: State)
    requires Inv(s) && s.cur.Some?
    ensures QueuesOf(Tick(s)) == QueuesAfter(s, Timer, QueuesOf(s))
  {
    hide Mostly, CurOk, StampsOk, LevelsOk, Charge, Yield, TickQueues, Outranked, Queue, BoostDue;
    InvAnyTicks(s, (s.ticks + 1) % WRAP);
    var p, t := s.cur.value, s.(ticks := (s.ticks + 1) % WRAP);
    MaybeBoostInv(t);
    var b := MaybeBoost(t);
    if BoostDue(t) {
      BoostFacts(t.(lastBoost := t.ticks), NPROC);
      BoostMakesOneQueue(t.(lastBoost := t.ticks), b);
      BoostExhausts(t);
      ChargeQueues(b, p);
    } else {
      ChargeQueues(t, p);
    }
  }

  /** Every event acts on the stamps as it would on four real queues. */
  lemma RefinesQueues(s: State, e: Event)
    requires Inv(s) && Enabled(s, e)
    ensures QueuesOf(Step(s, e)) == QueuesAfter(s, e, QueuesOf(s))
    ensures e == Schedule ==> First(QueuesOf(s)) < LEVELS && Step(s, e).cur == Some(QueuesOf(s)[First(QueuesOf(s))][0])
  {
    StepInv(s, e);
    match e
    case Start(p) => StartWakeQueues(s, p);
    case Wake(p) => StartWakeQueues(s, p);
    case Timer => TimerQueues(s);
    case Schedule => ScheduleQueues(s);
    case Alloc(p) => QueuesUnchanged(s, Step(s, e), p);
    case Reap(p) => QueuesUnchanged(s, Step(s, e), p);
    case Sleep => QueuesUnchanged(s, Step(s, e), s.cur.value);
    case Exit => QueuesUnchanged(s, Step(s, e), s.cur.value);
    case Uncharged =>
  }
}
