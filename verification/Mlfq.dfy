/**
 The MLFQ scheduler (proc.c) on one hart, as a state machine whose steps are
 the code's lock-protected sections.  There are no queues in the state: each
 process carries a priority and a stamp.
 */
module Mlfq {
  import opened Wrappers

  const NPROC := 64
  const LEVELS := 4
  const BOOST_INTERVAL := 48
  const WRAP := 0x1_0000_0000    // ticks is a 32-bit unsigned counter

  datatype PState = UNUSED | USED | SLEEPING | RUNNABLE | RUNNING | ZOMBIE
  datatype Proc = Proc(state: PState, prio: nat, used: nat, qtime: nat)

  /** cur is the hart's c->proc; counter is mlfq_seq_counter. */
  datatype State = State(procs: seq<Proc>, counter: nat, ticks: nat, lastBoost: nat, cur: Option<nat>)

  function Slice(prio: nat): nat {
    if prio == 0 then 1 else if prio == 1 then 4 else if prio == 2 then 8 else 16
  }

  // The code's functions.

  /** mlfq_enqueue: a full slice and the next stamp. */
  function Enqueue(s: State, p: nat): State
    requires p < |s.procs|
  {
    s.(procs := s.procs[p := s.procs[p].(used := 0, qtime := s.counter)], counter := s.counter + 1)
  }

  function SetState(s: State, p: nat, st: PState): State
    requires p < |s.procs|
  {
    s.(procs := s.procs[p := s.procs[p].(state := st)])
  }

  /** mlfq_boost_all over the first n slots of the table. */
  function BoostTo(s: State, n: nat): (r: State)
    requires n <= |s.procs|
    ensures |r.procs| == |s.procs|
  {
    if n == 0 then s else
      var r := BoostTo(s, n - 1);
      if r.procs[n - 1].state == UNUSED then r
      else Enqueue(r.(procs := r.procs[n - 1 := r.procs[n - 1].(prio := 0)]), n - 1)
  }

  /** mlfq_maybe_boost's test. */
  predicate BoostDue(s: State) {
    (s.ticks - s.lastBoost) % WRAP >= BOOST_INTERVAL
  }

  function MaybeBoost(s: State): (r: State)
    ensures |r.procs| == |s.procs|
  {
    if BoostDue(s) then BoostTo(s.(lastBoost := s.ticks), |s.procs|) else s
  }

  predicate Exhausts(pr: Proc) {
    pr.used + 1 >= Slice(pr.prio)
  }

  /** mlfq_tick's accounting. */
  function Charge(s: State, p: nat): (r: State)
    requires p < |s.procs|
    ensures |r.procs| == |s.procs|
  {
    var pr := s.procs[p];
    var charged := s.(procs := s.procs[p := pr.(used := pr.used + 1)]);
    if Exhausts(pr) then
      Enqueue(charged.(procs := charged.procs[p := charged.procs[p].(prio := if pr.prio < LEVELS - 1 then pr.prio + 1
        else pr.prio)]), p)
    else charged
  }

  /** mlfq_higher_priority_exists. */
  predicate Outranked(procs: seq<Proc>, prio: nat) {
    exists q :: 0 <= q < |procs| && procs[q].state == RUNNABLE && procs[q].prio < prio
  }

  function Yield(s: State, p: nat): State
    requires p < |s.procs|
  {
    SetState(s, p, RUNNABLE).(cur := None)
  }

  /** clockintr and mlfq_tick for the running process. */
  function Tick(s: State): (r: State)
    requires s.cur.Some? && s.cur.value < |s.procs|
    ensures |r.procs| == |s.procs|
  {
    var p := s.cur.value;
    var boosted := MaybeBoost(s.(ticks := (s.ticks + 1) % WRAP));
    var charged := Charge(boosted, p);
    if Exhausts(boosted.procs[p]) || Outranked(charged.procs, charged.procs[p].prio) then Yield(charged, p) else charged
  }

  predicate Before(a: Proc, b: Proc) {
    a.prio < b.prio || (a.prio == b.prio && a.qtime < b.qtime)
  }

  /** The scan of the first n slots: the RUNNABLE process with the least (priority, stamp). */
  function BestTo(procs: seq<Proc>, n: nat): (b: Option<nat>)
    requires n <= |procs|
    ensures b.Some? ==> b.value < n && procs[b.value].state == RUNNABLE
  {
    if n == 0 then None else
      var b := BestTo(procs, n - 1);
      if procs[n - 1].state == RUNNABLE && (b.None? || Before(procs[n - 1], procs[b.value])) then Some(n - 1) else b
  }

  /** scheduler: scan, then switch to the best. */
  function Dispatch(s: State): State {
    var b := BestTo(s.procs, |s.procs|);
    if b.None? then s else SetState(s, b.value, RUNNING).(cur := b)
  }

  // Events and runs.

  datatype Event =
    | Alloc(p: nat)        // allocproc finds slot p
    | Start(p: nat)        // userinit's or kfork's last section
    | Wake(p: nat)         // wakeup or kkill of a sleeping process
    | Sleep                // the running process goes to sleep
    | Exit                 // the running process becomes a zombie
    | Reap(p: nat)         // kwait or a failed fork frees slot p
    | Timer                // timer interrupt while a process runs
    | Uncharged            // timer interrupt with none running, or in user mode on a killed process
    | Schedule             // scheduler finds a process and switches to it

  predicate In(s: State, p: nat, st: PState) {
    p < |s.procs| && s.procs[p].state == st
  }

  predicate Enabled(s: State, e: Event) {
    match e
    case Alloc(p) => In(s, p, UNUSED)
    case Start(p) => In(s, p, USED)
    case Wake(p) => In(s, p, SLEEPING)
    case Sleep => s.cur.Some?
    case Exit => s.cur.Some?
    case Reap(p) => In(s, p, ZOMBIE) || In(s, p, USED)
    case Timer => s.cur.Some?
    case Uncharged => true
    case Schedule => s.cur.None? && BestTo(s.procs, |s.procs|).Some?
  }

  function Step(s: State, e: Event): (r: State)
    requires Enabled(s, e) && (s.cur.Some? ==> s.cur.value < |s.procs|)
  {
    match e
    case Alloc(p) => s.(procs := s.procs[p := Proc(USED, 0, 0, 0)])
    case Start(p) => SetState(Enqueue(s, p), p, RUNNABLE)
    case Wake(p) => SetState(Enqueue(s, p), p, RUNNABLE)
    case Sleep => SetState(s, s.cur.value, SLEEPING).(cur := None)
    case Exit => SetState(s, s.cur.value, ZOMBIE).(cur := None)
    case Reap(p) => SetState(s, p, UNUSED)
    case Timer => Tick(s)
    case Uncharged => s.(ticks := (s.ticks + 1) % WRAP)
    case Schedule => Dispatch(s)
  }

  // The invariant.

  /** Stamps handed out are below the counter and no two processes share one. */
  ghost predicate StampsOk(procs: seq<Proc>, counter: nat) {
    && counter > 0
    && (forall i :: 0 <= i < |procs| ==> procs[i].qtime < counter)
    && (forall i, j :: 0 <= i < j < |procs| && procs[i].qtime > 0 ==> procs[i].qtime != procs[j].qtime)
    && (forall i :: 0 <= i < |procs| && procs[i].state in {RUNNABLE, RUNNING, SLEEPING} ==> procs[i].qtime > 0)
  }

  ghost predicate LevelsOk(procs: seq<Proc>) {
    && (forall i :: 0 <= i < |procs| && procs[i].state != UNUSED ==>
      procs[i].prio < LEVELS && procs[i].used < Slice(procs[i].prio))
    && (forall i :: 0 <= i < |procs| && procs[i].state == USED ==> procs[i].prio == 0)
  }

  /** On one hart the process in c->proc is the one that is RUNNING, and it is ahead of its own queue. */
  ghost predicate CurOk(s: State) {
    && (forall i :: 0 <= i < |s.procs| ==> (s.procs[i].state == RUNNING <==> s.cur == Some(i)))
    && (s.cur.Some? ==> s.cur.value < |s.procs|)
    && (s.cur.Some? ==> var c := s.procs[s.cur.value];
        forall i :: 0 <= i < |s.procs| && s.procs[i].state == RUNNABLE && s.procs[i].prio == c.prio ==>
          c.qtime < s.procs[i].qtime)
  }

  ghost predicate Inv(s: State) {
    |s.procs| == NPROC && StampsOk(s.procs, s.counter) && LevelsOk(s.procs) && CurOk(s)
  }

  function Init(): State {
    State(seq(NPROC, i => Proc(UNUSED, 0, 0, 0)), 1, 0, 0, None)
  }

  lemma EnqueueStamps(s: State, p: nat)
    requires StampsOk(s.procs, s.counter) && p < |s.procs|
    ensures StampsOk(Enqueue(s, p).procs, Enqueue(s, p).counter)
  {
  }

  /** What a boost of the first n slots has done. */
  ghost predicate Boosted(s: State, r: State, n: nat) {
    && |r.procs| == |s.procs| && s.counter <= r.counter
    && r.ticks == s.ticks && r.lastBoost == s.lastBoost && r.cur == s.cur
    && (forall i :: 0 <= i < |s.procs| && (n <= i || s.procs[i].state == UNUSED) ==> r.procs[i] == s.procs[i])
    && (forall i :: 0 <= i < n && i < |s.procs| && s.procs[i].state != UNUSED ==>
          r.procs[i] == Proc(s.procs[i].state, 0, 0, r.procs[i].qtime) && s.counter <= r.procs[i].qtime < r.counter)
    && (forall i, j :: 0 <= i < j < n && j < |s.procs| && s.procs[i].state != UNUSED && s.procs[j].state != UNUSED ==>
          r.procs[i].qtime < r.procs[j].qtime)
  }

  /** A boost restamps the table in order. */
  lemma {:induction false} BoostFacts(s: State, n: nat)
    requires n <= |s.procs| && StampsOk(s.procs, s.counter)
    ensures Boosted(s, BoostTo(s, n), n)
    ensures StampsOk(BoostTo(s, n).procs, BoostTo(s, n).counter)
  {
    if n > 0 {
      BoostFacts(s, n - 1);
      var r := BoostTo(s, n - 1);
      if r.procs[n - 1].state != UNUSED {
        BoostOne(r, n - 1);
      }
      hide StampsOk;
      BoostedNext(s, r, BoostTo(s, n), n);
    }
  }

  lemma BoostedNext(s: State, r: State, r': State, n: nat)
    requires 0 < n <= |s.procs| && Boosted(s, r, n - 1)
    requires r.procs[n - 1].state == UNUSED ==> r' == r
    requires r.procs[n - 1].state != UNUSED ==>
      r' == r.(procs := r.procs[n - 1 := Proc(r.procs[n - 1].state, 0, 0, r.counter)], counter := r.counter + 1)
    ensures Boosted(s, r', n)
  {
  }

  lemma BoostOne(r: State, p: nat)
    requires StampsOk(r.procs, r.counter) && p < |r.procs|
    ensures var r' := Enqueue(r.(procs := r.procs[p := r.procs[p].(prio := 0)]), p);
      && StampsOk(r'.procs, r'.counter) && r'.counter == r.counter + 1
      && r'.procs == r.procs[p := Proc(r.procs[p].state, 0, 0, r.counter)]
  {
  }

  lemma BestIsLeast(procs: seq<Proc>, n: nat)
    requires n <= |procs|
    ensures BestTo(procs, n).None? <==> forall i :: 0 <= i < n ==> procs[i].state != RUNNABLE
    ensures BestTo(procs, n).Some? ==>
      forall i :: 0 <= i < n && procs[i].state == RUNNABLE ==> !Before(procs[i], procs[BestTo(procs, n).value])
  {
  }

  lemma StartWakeInv(s: State, p: nat)
    requires Inv(s) && (In(s, p, USED) || In(s, p, SLEEPING))
    ensures Inv(SetState(Enqueue(s, p), p, RUNNABLE))
  {
    EnqueueStamps(s, p);
  }

  lemma DispatchInv(s: State)
    requires Inv(s) && s.cur.None?
    ensures Inv(Dispatch(s))
  {
    BestIsLeast(s.procs, |s.procs|);
  }

  /** Everything but CurOk's order clause. */
  ghost predicate Mostly(s: State) {
    && |s.procs| == NPROC && StampsOk(s.procs, s.counter) && LevelsOk(s.procs)
    && (forall i :: 0 <= i < |s.procs| ==> (s.procs[i].state == RUNNING <==> s.cur == Some(i)))
    && (s.cur.Some? ==> s.cur.value < |s.procs|)
  }

  lemma MaybeBoostInv(s: State)
    requires Inv(s)
    ensures Mostly(MaybeBoost(s))
    ensures !BoostDue(s) ==> MaybeBoost(s) == s
    ensures BoostDue(s) && s.cur.Some? ==> MaybeBoost(s).procs[s.cur.value].prio == 0
    ensures MaybeBoost(s).cur == s.cur
  {
    if BoostDue(s) {
      BoostFacts(s.(lastBoost := s.ticks), |s.procs|);
    }
  }

  lemma ChargeInv(s: State, p: nat)
    requires Mostly(s) && s.cur == Some(p)
    ensures Mostly(Charge(s, p)) && Charge(s, p).cur == s.cur
    ensures Charge(s, p).procs[p].prio ==
      (if Exhausts(s.procs[p]) && s.procs[p].prio < LEVELS - 1 then s.procs[p].prio + 1 else s.procs[p].prio)
    ensures forall i :: 0 <= i < NPROC && i != p ==> Charge(s, p).procs[i] == s.procs[i]
    ensures !Exhausts(s.procs[p]) ==> Charge(s, p).procs[p].qtime == s.procs[p].qtime
    ensures Exhausts(s.procs[p]) ==> Charge(s, p).procs[p].qtime == s.counter
  {
  }

  lemma YieldInv(s: State, p: nat)
    requires Mostly(s) && s.cur == Some(p)
    ensures Inv(Yield(s, p))
  {
  }

  /** A tick that boosts also exhausts the slice: queue 0's slice is one tick. */
  lemma BoostExhausts(s: State)
    requires Inv(s) && s.cur.Some? && BoostDue(s)
    ensures Exhausts(MaybeBoost(s).procs[s.cur.value])
  {
    BoostFacts(s.(lastBoost := s.ticks), |s.procs|);
  }

  lemma TickInv(s: State)
    requires Inv(s) && s.cur.Some?
    ensures Inv(Tick(s))
  {
    hide Inv, Mostly, Outranked, BoostDue, MaybeBoost, Charge, Yield;
    InvAnyTicks(s, (s.ticks + 1) % WRAP);
    var p, t := s.cur.value, s.(ticks := (s.ticks + 1) % WRAP);
    MaybeBoostInv(t);
    var b := MaybeBoost(t);
    ChargeInv(b, p);
    if BoostDue(t) { BoostExhausts(t); }
    if !Exhausts(b.procs[p]) { KeepsRunning(t, p); }
    if Exhausts(b.procs[p]) || Outranked(Charge(b, p).procs, Charge(b, p).procs[p].prio) {
      YieldInv(Charge(b, p), p);
    }
  }

  lemma InvAnyTicks(s: State, t: nat)
    requires Inv(s)
    ensures Inv(s.(ticks := t)) && (s.cur.Some? ==> s.cur.value < |s.procs|) && |s.procs| == NPROC
  {
  }

  lemma KeepsRunning(s: State, p: nat)
    requires Inv(s) && s.cur == Some(p) && !Exhausts(s.procs[p])
    ensures Inv(Charge(s, p))
  {
    ChargeInv(s, p);
  }

  /** Every step keeps the invariant. */
  lemma StepInv(s: State, e: Event)
    requires Inv(s) && Enabled(s, e)
    ensures Inv(Step(s, e))
  {
    match e
    case Start(p) => StartWakeInv(s, p);
    case Wake(p) => StartWakeInv(s, p);
    case Timer => TickInv(s);
    case Schedule => DispatchInv(s);
    case _ =>
  }

  ghost predicate IsRun(s: State, es: seq<Event>)
    decreases |es|
  {
    es != [] ==> (s.cur.Some? ==> s.cur.value < |s.procs|) && Enabled(s, es[0]) && IsRun(Step(s, es[0]), es[1..])
  }

  ghost function Exec(s: State, es: seq<Event>): State
    requires IsRun(s, es)
    decreases |es|
  {
    if es == [] then s else Exec(Step(s, es[0]), es[1..])
  }

  lemma {:induction false} RunInv(s: State, es: seq<Event>)
    requires Inv(s) && IsRun(s, es)
    ensures Inv(Exec(s, es))
    decreases |es|
  {
    if es != [] {
      StepInv(s, es[0]);
      RunInv(Step(s, es[0]), es[1..]);
    }
  }

  lemma InitInv()
    ensures Inv(Init())
  {
  }
}
