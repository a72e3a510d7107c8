/**
 The scheduler that proc.c describes: four real queues, and for every process
 its level and the ticks it has had on its slice.  It has no stamps and no
 process table; the stamped state refines it.
 */
module MlfqFifo {
  import opened Wrappers
  import opened Mlfq
  import opened MlfqQueues
  import opened MlfqBound

  const SLICES: seq<nat> := [1, 4, 8, 16]

  /** clock: ticks since the last boost.  A process that is not in use has level and ticks 0. */
  datatype Fifo = Fifo(queues: Queues, level: seq<nat>, ticks: seq<nat>, run: Option<nat>, clock: nat)

  ghost predicate FifoOk(f: Fifo) {
    && |f.queues| == 4 && |f.level| == |f.ticks| == NPROC
    && (forall i :: 0 <= i < NPROC ==> f.level[i] < 4)
    && (f.run.Some? ==> f.run.value < NPROC)
  }

  /** p joins the tail of its level with a full slice. */
  function Arrive(f: Fifo, p: nat): Fifo
    requires FifoOk(f) && p < NPROC
  {
    f.(queues := Append(f.queues, f.level[p], p), ticks := f.ticks[p := 0])
  }

  predicate Queued(qs: Queues, i: nat) {
    exists k :: 0 <= k < |qs| && i in qs[k]
  }

  /** The queued processes below n, in table order. */
  ghost function InOrder(qs: Queues, n: nat): seq<nat> {
    if n == 0 then [] else InOrder(qs, n - 1) + if Queued(qs, n - 1) then [n - 1] else []
  }

  /** A boost: everyone to level 0 with a full slice, those waiting in table order. */
  ghost function Raised(f: Fifo): Fifo
    requires FifoOk(f)
  {
    Fifo([InOrder(f.queues, NPROC), [], [], []], seq(NPROC, i => 0), seq(NPROC, i => 0), f.run, 0)
  }

  /** The running process has used one more tick of its slice of 1, 4, 8 or 16. */
  ghost function Charged(f: Fifo): Fifo
    requires FifoOk(f) && f.run.Some?
  {
    var p := f.run.value;
    var k, n := f.level[p], f.ticks[p] + 1;
    if n == SLICES[k] then
      var k' := if k < 3 then k + 1 else 3;
      f.(run := None, level := f.level[p := k'], ticks := f.ticks[p := 0], queues := Append(f.queues, k', p))
    else if exists j :: 0 <= j < k && f.queues[j] != [] then
      f.(run := None, ticks := f.ticks[p := n], queues := Prepend(f.queues, k, p))
    else f.(ticks := f.ticks[p := n])
  }

  ghost function FifoStep(f: Fifo, e: Event): Fifo
    requires FifoOk(f) && (e.Alloc? || e.Start? || e.Wake? || e.Reap? ==> e.p < NPROC)
    requires e.Sleep? || e.Exit? || e.Timer? ==> f.run.Some?
  {
    match e
    case Alloc(p) => f.(level := f.level[p := 0], ticks := f.ticks[p := 0])
    case Start(p) => Arrive(f.(level := f.level[p := 0]), p)
    case Wake(p) => Arrive(f, p)
    case Sleep => f.(run := None)
    case Exit => f.(run := None, level := f.level[f.run.value := 0], ticks := f.ticks[f.run.value := 0])
    case Reap(p) => f
    case Uncharged => f.(clock := (f.clock + 1) % WRAP)
    case Timer =>
      var g := f.(clock := (f.clock + 1) % WRAP);
      Charged(if g.clock >= 48 then Raised(g) else g)
    case Schedule =>
      var k := First(f.queues);
      if k < 4 then f.(run := Some(f.queues[k][0]), queues := f.queues[k := f.queues[k][1..]]) else f
  }

  // The stamped state as such a machine.

  predicate InUse(q: Proc) { q.state != UNUSED && q.state != ZOMBIE }

  function LevelOf(q: Proc): nat { if InUse(q) then q.prio else 0 }

  function TicksOf(q: Proc): nat { if InUse(q) then q.used else 0 }

  function Levels(procs: seq<Proc>): (r: seq<nat>)
    ensures |r| == |procs|
  {
    seq(|procs|, i requires 0 <= i < |procs| => LevelOf(procs[i]))
  }

  function Ticks(procs: seq<Proc>): (r: seq<nat>)
    ensures |r| == |procs|
  {
    seq(|procs|, i requires 0 <= i < |procs| => TicksOf(procs[i]))
  }

  function Abs(s: State): Fifo {
    Fifo(QueuesOf(s), Levels(s.procs), Ticks(s.procs), s.cur, Elapsed(s))
  }

  lemma AbsOk(s: State)
    requires Inv(s)
    ensures FifoOk(Abs(s))
  {
    hide QueuesOf;
  }

  /** One process changes. */
  lemma OneChange(procs: seq<Proc>, p: nat, q: Proc)
    requires p < |procs|
    ensures Levels(procs[p := q]) == Levels(procs)[p := LevelOf(q)]
    ensures Ticks(procs[p := q]) == Ticks(procs)[p := TicksOf(q)]
  {
  }

  lemma SameAt(a: seq<nat>, p: nat)
    requires p < |a|
    ensures a[p := a[p]] == a
  {
  }

  /** The other events: who arrives, leaves, starts or is freed. */
  lemma OtherFields(s: State, e: Event)
    requires Inv(s) && Enabled(s, e) && !e.Timer? && !e.Schedule? && !e.Uncharged?
    ensures FifoOk(Abs(s))
    ensures var t, f := Step(s, e), FifoStep(Abs(s), e);
      Levels(t.procs) == f.level && Ticks(t.procs) == f.ticks && t.cur == f.run && Elapsed(t) == f.clock
  {
    hide QueuesOf;
    AbsOk(s);
    var t := Step(s, e);
    var p := if e.Sleep? || e.Exit? then s.cur.value else e.p;
    assert t.procs == s.procs[p := t.procs[p]];
    OneChange(s.procs, p, t.procs[p]);
    SameAt(Levels(s.procs), p);
    SameAt(Ticks(s.procs), p);
  }

  lemma QueuedIffRunnable(s: State, i: nat)
    requires Inv(s) && i < NPROC
    ensures Queued(QueuesOf(s), i) <==> s.procs[i].state == RUNNABLE
  {
    var qs := QueuesOf(s);
    if s.procs[i].state == RUNNABLE {
      RunnableIsQueued(s, i);
    }
    if Queued(qs, i) {
      var k :| 0 <= k < |qs| && i in qs[k];
      QueueOk(s.procs, s.counter, k);
    }
  }

  lemma {:induction false} RunnablesInOrder(s: State, n: nat)
    requires Inv(s) && n <= NPROC
    ensures Runnables(s.procs, n) == InOrder(QueuesOf(s), n)
  {
    hide QueuesOf, Queued, Inv;
    InvAnyTicks(s, s.ticks);
    if n > 0 {
      RunnablesInOrder(s, n - 1);
      QueuedIffRunnable(s, n - 1);
    }
  }

  /** What Tick does to the queues is what Charged does. */
  lemma TickIsCharged(f: Fifo)
    requires FifoOk(f) && f.run.Some? && f.ticks[f.run.value] < Slice(f.level[f.run.value])
    ensures Charged(f).queues == TickQueues(f.queues, f.run.value, f.level[f.run.value], f.ticks[f.run.value])
  {
    FirstBelow(f.queues, f.level[f.run.value]);
  }

  lemma FirstBelow(qs: Queues, k: nat)
    requires k <= |qs|
    ensures First(qs) < k <==> exists j :: 0 <= j < k && qs[j] != []
  {
  }

  /** The end of a tick, from the state after mlfq_maybe_boost. */
  function Ended(b: State, p: nat): State
    requires p < |b.procs|
  {
    var c := Charge(b, p);
    if Exhausts(b.procs[p]) || Outranked(c.procs, c.procs[p].prio) then Yield(c, p) else c
  }

  /** The accounting of a tick on the table. */
  lemma ChargeFields(b: State, p: nat)
    requires Mostly(b) && b.cur == Some(p)
    ensures p < NPROC == |b.procs| && FifoOk(Abs(b)) && b.procs[p].used < Slice(b.procs[p].prio) && b.procs[p].prio < 4
    ensures Abs(b).level[p] == b.procs[p].prio && Abs(b).ticks[p] == b.procs[p].used
    ensures var t, f := Ended(b, p), Charged(Abs(b));
      && Levels(t.procs) == f.level && Ticks(t.procs) == f.ticks && Elapsed(t) == f.clock
      && (t.cur.Some? ==> t.cur == b.cur) && (f.run.Some? ==> f.run == b.cur)
  {
    hide QueuesOf, Outranked;
    var t := Ended(b, p);
    assert t.procs == b.procs[p := t.procs[p]];
    OneChange(b.procs, p, t.procs[p]);
  }

  /** Both give up the hart for the same reasons. */
  lemma ChargeRuns(b: State, p: nat)
    requires Mostly(b) && b.cur == Some(p)
    ensures p < NPROC == |b.procs| && FifoOk(Abs(b)) && (Ended(b, p).cur.None? <==> Charged(Abs(b)).run.None?)
  {
    ChargeFields(b, p);
    if !Exhausts(b.procs[p]) {
      var c := Charge(b, p);
      ChargeInv(b, p);
      hide QueuesOf, Outranked;
      QueuesUnchanged(b, c, p);
      OutrankedIffFirst(c, b.procs[p].prio);
      FirstBelow(QueuesOf(b), b.procs[p].prio);
    }
  }

  lemma ChargeRefines(b: State, p: nat)
    requires Mostly(b) && b.cur == Some(p) && (!Exhausts(b.procs[p]) ==> CurOk(b))
    ensures p < NPROC == |b.procs| && FifoOk(Abs(b)) && Abs(Ended(b, p)) == Charged(Abs(b))
  {
    hide Mostly, QueuesOf, Outranked, Charge, Yield, CurOk, Levels, Ticks, Elapsed;
    ChargeFields(b, p);
    ChargeRuns(b, p);
    ChargeQueues(b, p);
    TickIsCharged(Abs(b));
  }

  /** mlfq_maybe_boost when a boost is due. */
  lemma BoostRefines(s: State)
    requires Inv(s) && BoostDue(s)
    ensures FifoOk(Abs(s)) && Abs(MaybeBoost(s)) == Raised(Abs(s))
  {
    AbsOk(s);
    var b := MaybeBoost(s);
    BoostFacts(s.(lastBoost := s.ticks), NPROC);
    BoostMakesOneQueue(s.(lastBoost := s.ticks), b);
    RunnablesInOrder(s, NPROC);
    BoostFields(s);
    hide QueuesOf, Inv, MaybeBoost, Levels, Ticks;
  }

  lemma BoostFields(s: State)
    requires Inv(s) && BoostDue(s)
    ensures var b := MaybeBoost(s);
      && Levels(b.procs) == Ticks(b.procs) == seq(NPROC, i => 0) && b.cur == s.cur && Elapsed(b) == 0
  {
    BoostFacts(s.(lastBoost := s.ticks), NPROC);
    BoostClock(s, NPROC);
    hide BoostTo;
  }

  lemma TimerRefines(s: State)
    requires Inv(s) && s.cur.Some?
    ensures FifoOk(Abs(s)) && Abs(Step(s, Timer)) == FifoStep(Abs(s), Timer)
  {
    hide Mostly, CurOk, StampsOk, LevelsOk, Charge, Yield, Outranked, Queue, Levels, Ticks, Raised, Charged, FifoOk;
    AbsOk(s);
    InvAnyTicks(s, (s.ticks + 1) % WRAP);
    var p, t := s.cur.value, s.(ticks := (s.ticks + 1) % WRAP);
    MaybeBoostInv(t);
    assert Abs(t) == Abs(s).(clock := (Abs(s).clock + 1) % WRAP);
    if BoostDue(t) {
      BoostRefines(t);
      BoostExhausts(t);
      ChargeRefines(MaybeBoost(t), p);
    } else {
      ChargeRefines(t, p);
    }
  }

  lemma ScheduleRefines(s: State)
    requires Inv(s) && Enabled(s, Schedule)
    ensures FifoOk(Abs(s)) && Abs(Step(s, Schedule)) == FifoStep(Abs(s), Schedule)
  {
    hide QueuesOf, First;
    AbsOk(s);
    ScheduleQueues(s);
    var t := Dispatch(s);
    var p := t.cur.value;
    assert t.procs == s.procs[p := t.procs[p]];
    OneChange(s.procs, p, t.procs[p]);
    SameAt(Levels(s.procs), p);
    SameAt(Ticks(s.procs), p);
  }

  /** Every event acts on the stamped table as it does on the four queues with their slices. */
  lemma RefinesFifo(s: State, e: Event)
    requires Inv(s) && Enabled(s, e)
    ensures FifoOk(Abs(s)) && (e.Sleep? || e.Exit? || e.Timer? ==> Abs(s).run.Some?)
    ensures Abs(Step(s, e)) == FifoStep(Abs(s), e)
  {
    hide QueuesOf, Levels, Ticks, Elapsed;
    AbsOk(s);
    match e
    case Timer => TimerRefines(s);
    case Schedule => ScheduleRefines(s);
    case Uncharged => UnchargedRefines(s);
    case _ =>
      OtherFields(s, e);
      OtherQueues(s, e);
  }

  lemma UnchargedRefines(s: State)
    requires Inv(s)
    ensures FifoOk(Abs(s)) && Abs(Step(s, Uncharged)) == FifoStep(Abs(s), Uncharged)
  {
    hide QueuesOf;
    AbsOk(s);
    RefinesQueues(s, Uncharged);
  }

  lemma OtherQueues(s: State, e: Event)
    requires Inv(s) && Enabled(s, e) && !e.Timer? && !e.Schedule? && !e.Uncharged?
    ensures FifoOk(Abs(s)) && QueuesOf(Step(s, e)) == FifoStep(Abs(s), e).queues
  {
    AbsOk(s);
    RefinesQueues(s, e);
    hide QueuesOf;
  }

  /** The scheduler finds a process exactly when a queue is not empty. */
  lemma CanPick(s: State)
    requires Inv(s)
    ensures Enabled(s, Schedule) <==> Abs(s).run.None? && First(Abs(s).queues) < 4
  {
    BestIsHead(s);
  }

  ghost predicate Can(f: Fifo, e: Event) {
    && FifoOk(f) && (e.Alloc? || e.Start? || e.Wake? || e.Reap? ==> e.p < NPROC)
    && (e.Sleep? || e.Exit? || e.Timer? ==> f.run.Some?)
  }

  ghost function FifoExec(f: Fifo, es: seq<Event>): Fifo
    decreases |es|
  {
    if es == [] || !Can(f, es[0]) then f else FifoExec(FifoStep(f, es[0]), es[1..])
  }

  /** Every run of the stamped table is a run of the machine. */
  lemma {:induction false} RunRefines(s: State, es: seq<Event>)
    requires Inv(s) && IsRun(s, es)
    ensures Abs(Exec(s, es)) == FifoExec(Abs(s), es)
    decreases |es|
  {
    hide Inv, Abs, FifoStep, Step;
    if es != [] {
      RefinesFifo(s, es[0]);
      CanStep(s, es[0]);
      StepInv(s, es[0]);
      RunRefines(Step(s, es[0]), es[1..]);
    }
  }

  lemma CanStep(s: State, e: Event)
    requires Inv(s) && Enabled(s, e)
    ensures Can(Abs(s), e)
  {
    hide QueuesOf;
    AbsOk(s);
  }

  // How long a slice lasts, counted from the events.

  /** The event gives p a full slice. */
  predicate Refills(s: State, e: Event, p: nat) {
    e == Alloc(p) || e == Start(p) || e == Wake(p) || Boosts(s, e)
  }

  predicate TicksOn(s: State, e: Event, p: nat) { e == Timer && s.cur == Some(p) }

  /** The ticks p has had on its slice after the event, n of them before it. */
  function NextHad(s: State, e: Event, p: nat, n: nat): nat
    requires p < |s.procs|
  {
    if Refills(s, e, p) then 0
    else if !TicksOn(s, e, p) then n
    else if s.procs[p].prio < 4 && n + 1 == SLICES[s.procs[p].prio] then 0
    else n + 1
  }

  ghost function Had(s: State, es: seq<Event>, p: nat, n: nat): nat
    requires IsRun(s, es)
    decreases |es|
  {
    if es == [] || p >= |s.procs| then n else Had(Step(s, es[0]), es[1..], p, NextHad(s, es[0], p, n))
  }

  /** What an event does to process p: its slice and level, if it stays in use. */
  ghost predicate SliceStep(s: State, e: Event, p: nat, q': Proc) {
    && p < |s.procs|
    && var q := s.procs[p];
       && (InUse(q') ==> InUse(q) || e == Alloc(p))
       && (InUse(q') ==> q'.used == NextHad(s, e, p, q.used))
       && (InUse(q) && InUse(q') && !Boosts(s, e) ==>
             q.prio < 4 &&
             q'.prio == if TicksOn(s, e, p) && q.used + 1 == SLICES[q.prio] && q.prio < 3 then q.prio + 1 else q.prio)
  }

  lemma TickKeepsUse(s: State, p: nat)
    requires Inv(s) && s.cur.Some? && p < NPROC
    ensures |Tick(s).procs| == NPROC && (InUse(Tick(s).procs[p]) <==> InUse(s.procs[p]))
  {
    hide Inv, MaybeBoost, Ended, Charge, Yield, Outranked, Exhausts, InUse;
    InvAnyTicks(s, (s.ticks + 1) % WRAP);
    var t := s.(ticks := (s.ticks + 1) % WRAP);
    BoostKeepsUse(t, p);
    EndKeepsUse(MaybeBoost(t), s.cur.value, p);
    TickEnds(s);
  }

  lemma TickEnds(s: State)
    requires s.cur.Some? && s.cur.value < |s.procs|
    ensures Tick(s) == Ended(MaybeBoost(s.(ticks := (s.ticks + 1) % WRAP)), s.cur.value)
  {
  }

  lemma BoostKeepsUse(s: State, p: nat)
    requires Inv(s) && p < NPROC
    ensures |MaybeBoost(s).procs| == NPROC && MaybeBoost(s).procs[p].state == s.procs[p].state
    ensures MaybeBoost(s).cur == s.cur
    ensures s.cur.Some? ==> s.cur.value < NPROC && MaybeBoost(s).procs[s.cur.value].state == RUNNING
    ensures InUse(MaybeBoost(s).procs[p]) <==> InUse(s.procs[p])
  {
    if BoostDue(s) {
      BoostFacts(s.(lastBoost := s.ticks), NPROC);
    }
    hide BoostTo;
  }

  lemma EndKeepsUse(b: State, c: nat, p: nat)
    requires c < |b.procs| && p < |b.procs| && b.procs[c].state == RUNNING
    ensures |Ended(b, c).procs| == |b.procs| && (InUse(Ended(b, c).procs[p]) <==> InUse(b.procs[p]))
  {
    hide Outranked;
  }

  lemma TimerSlice(s: State, p: nat)
    requires Inv(s) && s.cur.Some? && p < NPROC
    ensures |Step(s, Timer).procs| == NPROC && SliceStep(s, Timer, p, Step(s, Timer).procs[p])
  {
    TickKeepsUse(s, p);
    TimerRefines(s);
    BoostIsDue(s);
    RunnerInUse(s);
    hide QueuesOf, Inv, Tick, Exhausts;
    var f, t := Abs(s), Step(s, Timer);
    assert f.level[p] == LevelOf(s.procs[p]) && f.ticks[p] == TicksOf(s.procs[p]);
    assert Abs(t).level[p] == LevelOf(t.procs[p]) && Abs(t).ticks[p] == TicksOf(t.procs[p]);
  }

  lemma BoostIsDue(s: State)
    ensures Boosts(s, Timer) <==> (Elapsed(s) + 1) % WRAP >= 48
  {
  }

  lemma RunnerInUse(s: State)
    requires Inv(s) && s.cur.Some?
    ensures s.cur.value < NPROC == |s.procs| && InUse(s.procs[s.cur.value]) && s.procs[s.cur.value].prio < 4
    ensures forall p :: 0 <= p < NPROC && InUse(s.procs[p]) ==> s.procs[p].prio < 4
  {
  }

  lemma StepSlice(s: State, e: Event, p: nat)
    requires Inv(s) && Enabled(s, e) && p < NPROC
    ensures |Step(s, e).procs| == NPROC && SliceStep(s, e, p, Step(s, e).procs[p])
  {
    hide Tick, BestTo, StampsOk;
    if e == Timer {
      TimerSlice(s, p);
    }
  }

  /** The ticks_used of a process is the number of ticks it has had since it last got a full slice. */
  lemma {:induction false} UsedIsTicksHad(s: State, es: seq<Event>, p: nat, n: nat)
    requires Inv(s) && IsRun(s, es) && p < NPROC && (InUse(s.procs[p]) ==> s.procs[p].used == n)
    ensures |Exec(s, es).procs| == NPROC
      && (InUse(Exec(s, es).procs[p]) ==> Exec(s, es).procs[p].used == Had(s, es, p, n))
    decreases |es|
  {
    if es != [] {
      StepInv(s, es[0]);
      StepSlice(s, es[0], p);
      UsedIsTicksHad(Step(s, es[0]), es[1..], p, NextHad(s, es[0], p, n));
    }
  }

  /** The ticks p has during the run. */
  ghost function MyTicks(s: State, es: seq<Event>, p: nat): nat
    requires IsRun(s, es)
    decreases |es|
  {
    if es == [] then 0 else (if TicksOn(s, es[0], p) then 1 else 0) + MyTicks(Step(s, es[0]), es[1..], p)
  }

  /** p neither sleeps nor exits during the run. */
  ghost predicate Stays(s: State, es: seq<Event>, p: nat)
    requires IsRun(s, es)
    decreases |es|
  {
    es == [] || (!((es[0] == Sleep || es[0] == Exit) && s.cur == Some(p)) && Stays(Step(s, es[0]), es[1..], p))
  }

  predicate Ready(s: State, p: nat) { p < |s.procs| && (s.procs[p].state == RUNNABLE || s.procs[p].state == RUNNING) }

  lemma StaysReady(s: State, e: Event, p: nat)
    requires Inv(s) && Enabled(s, e) && Ready(s, p) && !((e == Sleep || e == Exit) && s.cur == Some(p))
    ensures Ready(Step(s, e), p) && e != Alloc(p) && e != Start(p) && e != Wake(p)
  {
    hide Tick, StampsOk, BestTo;
    BestIsLeast(s.procs, |s.procs|);
    if e == Timer {
      TickStaysReady(s, p);
    }
  }

  lemma TickStaysReady(s: State, p: nat)
    requires Inv(s) && s.cur.Some? && Ready(s, p)
    ensures Ready(Tick(s), p)
  {
    hide Inv, MaybeBoost, Ended, Charge, Yield, Outranked, Exhausts;
    InvAnyTicks(s, (s.ticks + 1) % WRAP);
    var t := s.(ticks := (s.ticks + 1) % WRAP);
    BoostKeepsUse(t, p);
    EndStaysReady(MaybeBoost(t), s.cur.value, p);
    TickEnds(s);
  }

  lemma EndStaysReady(b: State, c: nat, p: nat)
    requires c < |b.procs| && b.procs[c].state == RUNNING && Ready(b, p)
    ensures Ready(Ended(b, c), p)
  {
    hide Outranked;
  }

  /** With u ticks had at level k, and fewer than a whole slice of 1, 4, 8 or 16 in all, p is where it was. */
  lemma {:induction false} SliceLasts(s: State, es: seq<Event>, p: nat, k: nat, u: nat)
    requires Inv(s) && IsRun(s, es) && Ready(s, p) && p < NPROC && s.procs[p].prio == k < 4 && s.procs[p].used == u
    requires NoBoost(s, es) && Stays(s, es, p) && u + MyTicks(s, es, p) < [1, 4, 8, 16][k]
    ensures var t := Exec(s, es);
      Inv(t) && Ready(t, p) && t.procs[p].prio == k && t.procs[p].used == u + MyTicks(s, es, p)
    decreases |es|
  {
    hide Inv, Step, Boosts, Enabled;
    if es != [] {
      var e := es[0];
      StaysReady(s, e, p);
      StepSlice(s, e, p);
      StepInv(s, e);
      SliceLasts(Step(s, e), es[1..], p, k, if TicksOn(s, e, p) then u + 1 else u);
    }
  }

  /**
   A process that enters level k with a full slice and neither sleeps nor is
   boosted goes down a level at its first, fourth, eighth or sixteenth tick there
   and at no other; at level 3 it stays.  It then waits at the tail, with a full slice.
   */
  lemma DemotedExactly(s: State, es: seq<Event>, p: nat, k: nat)
    requires Inv(s) && IsRun(s, es) && Ready(s, p) && p < NPROC && s.procs[p].prio == k < 4 && s.procs[p].used == 0
    requires NoBoost(s, es) && Stays(s, es, p) && MyTicks(s, es, p) < [1, 4, 8, 16][k]
    requires Exec(s, es).cur == Some(p) && !Boosts(Exec(s, es), Timer)
    ensures Inv(Exec(s, es)) && Enabled(Exec(s, es), Timer)
    ensures var t := Step(Exec(s, es), Timer);
      && |t.procs| == NPROC && Ready(t, p)
      && if MyTicks(s, es, p) + 1 == [1, 4, 8, 16][k] then
           var k' := if k == 3 then 3 else k + 1;
           && t.procs[p].prio == k' && t.procs[p].used == 0 && t.cur.None?
           && QueuesOf(t)[k'] != [] && QueuesOf(t)[k'][|QueuesOf(t)[k']| - 1] == p
         else t.procs[p].prio == k && t.procs[p].used == MyTicks(s, es, p) + 1
  {
    hide Inv, Step, Boosts, QueuesOf, MyTicks, Stays, NoBoost;
    SliceLasts(s, es, p, k, 0);
    var u := Exec(s, es);
    TimerEnabled(u, p);
    StaysReady(u, Timer, p);
    StepSlice(u, Timer, p);
    if MyTicks(s, es, p) + 1 == [1, 4, 8, 16][k] {
      LastTick(u, p, k);
    }
  }

  lemma TimerEnabled(s: State, p: nat)
    requires Inv(s) && s.cur == Some(p)
    ensures Enabled(s, Timer) && p < |s.procs|
  {
  }

  lemma LastTick(s: State, p: nat, k: nat)
    requires Inv(s) && s.cur == Some(p) && p < NPROC && s.procs[p].prio == k < 4 && !Boosts(s, Timer)
    requires s.procs[p].used + 1 == [1, 4, 8, 16][k]
    ensures var t, k' := Step(s, Timer), if k == 3 then 3 else k + 1;
      && t.cur.None? && QueuesOf(t)[k'] != [] && QueuesOf(t)[k'][|QueuesOf(t)[k']| - 1] == p
  {
    TimerRefines(s);
    BoostIsDue(s);
    RunnerInUse(s);
    hide QueuesOf, Inv, Tick, Exhausts;
    var f := Abs(s);
    assert f.level[p] == k && f.ticks[p] == s.procs[p].used;
  }

  /** A new or woken process has a full slice, and a woken one its old level. */
  lemma FullSlice(s: State, e: Event, p: nat)
    requires Inv(s) && Enabled(s, e) && (e == Start(p) || e == Wake(p))
    ensures var q := Step(s, e).procs[p];
      q.state == RUNNABLE && q.used == 0 && q.prio == if e == Start(p) then 0 else s.procs[p].prio
  {
  }
}
