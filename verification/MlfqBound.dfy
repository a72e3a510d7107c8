/** How long a process waits in queue 0. */
module MlfqBound {
  import opened Wrappers
  import opened Mlfq
  import opened MlfqQueues

  /** Process p stands in queue 0 behind r others. */
  ghost predicate Waiting(s: State, p: nat, r: nat) {
    r < |QueuesOf(s)[0]| && QueuesOf(s)[0][r] == p
  }

  predicate Boosts(s: State, e: Event) {
    e == Timer && BoostDue(s.(ticks := (s.ticks + 1) % WRAP))
  }

  ghost predicate NoBoost(s: State, es: seq<Event>)
    requires IsRun(s, es)
    decreases |es|
  {
    es == [] || (!Boosts(s, es[0]) && NoBoost(Step(s, es[0]), es[1..]))
  }

  /** The scheduler does not pick p during the run. */
  ghost predicate PassedOver(s: State, es: seq<Event>, p: nat)
    requires IsRun(s, es)
    decreases |es|
  {
    es == [] || ((es[0] == Schedule ==> Step(s, es[0]).cur != Some(p)) && PassedOver(Step(s, es[0]), es[1..], p))
  }

  function Count(es: seq<Event>, e: Event): nat {
    if es == [] then 0 else (if es[0] == e then 1 else 0) + Count(es[1..], e)
  }

  /** A step that neither boosts nor picks p leaves p waiting; a pick of another brings it one place forward. */
  lemma StepWaiting(s: State, e: Event, p: nat, r: nat)
    requires Inv(s) && Enabled(s, e) && Waiting(s, p, r) && !Boosts(s, e)
    requires e == Schedule ==> Step(s, e).cur != Some(p)
    ensures e == Schedule ==> r > 0 && Waiting(Step(s, e), p, r - 1)
    ensures e != Schedule ==> Waiting(Step(s, e), p, r)
  {
    RefinesQueues(s, e);
    var qs := QueuesOf(s);
    hide QueuesOf;
    if e == Schedule {
      assert First(qs) == 0;
    }
  }

  /** Behind r others in queue 0 and with no boost, p is picked after at most r other picks. */
  lemma {:induction false} DispatchBound(s: State, es: seq<Event>, p: nat, r: nat)
    requires Inv(s) && IsRun(s, es) && Waiting(s, p, r) && NoBoost(s, es) && PassedOver(s, es, p)
    ensures Count(es, Schedule) <= r && Waiting(Exec(s, es), p, r - Count(es, Schedule))
    decreases |es|
  {
    hide Inv, QueuesOf, Waiting, Step, Boosts;
    if es != [] {
      var e := es[0];
      StepInv(s, e);
      StepWaiting(s, e, p, r);
      DispatchBound(Step(s, e), es[1..], p, if e == Schedule then r - 1 else r);
    }
  }

  /** Ticks since the last boost. */
  function Elapsed(s: State): int {
    (s.ticks - s.lastBoost) % WRAP
  }

  ghost predicate FromQueue0(s: State) {
    s.cur.Some? && s.cur.value < |s.procs| ==> s.procs[s.cur.value].prio == 0
  }

  /** What p's wait has cost and can still cost, in ticks. */
  ghost function Cost(s: State, es: seq<Event>, r: nat): int {
    Elapsed(s) + r + Count(es, Uncharged) + if s.cur.Some? then 1 else 0
  }

  lemma TickFromQueue0(s: State)
    requires Inv(s) && s.cur.Some? && FromQueue0(s) && !Boosts(s, Timer)
    ensures Tick(s).cur.None? && Elapsed(Tick(s)) == (Elapsed(s) + 1) % WRAP
  {
  }

  lemma StepCost(s: State, es: seq<Event>, p: nat, r: nat)
    requires Inv(s) && IsRun(s, es) && es != [] && FromQueue0(s) && Waiting(s, p, r) && Cost(s, es, r) < BOOST_INTERVAL
    requires es[0] == Schedule ==> Step(s, es[0]).cur != Some(p)
    ensures !Boosts(s, es[0])
    ensures FromQueue0(Step(s, es[0]))
    ensures (es[0] == Schedule ==> r > 0)
      && Cost(Step(s, es[0]), es[1..], if es[0] == Schedule then r - 1 else r) < BOOST_INTERVAL
  {
    hide Inv, Step, QueuesOf, Waiting, FromQueue0, Elapsed, Boosts;
    var e := es[0];
    InvAnyTicks(s, s.ticks);
    ElapsedPositive(s);
    if e == Timer {
      TimerCost(s);
    } else if e == Schedule {
      ScheduleCost(s, p, r);
    } else if e == Uncharged {
      UnchargedCost(s);
    } else {
      OthersKeepRunner(s, e);
    }
    NotTimer(s, e);
  }

  lemma ElapsedPositive(s: State)
    ensures Elapsed(s) >= 0
  {
  }

  lemma NotTimer(s: State, e: Event)
    ensures e != Timer ==> !Boosts(s, e)
  {
  }

  lemma ElapsedNext(s: State)
    requires Elapsed(s) < BOOST_INTERVAL
    ensures Elapsed(s.(ticks := (s.ticks + 1) % WRAP)) == Elapsed(s) + 1
  {
  }

  lemma TimerCost(s: State)
    requires Inv(s) && Enabled(s, Timer) && FromQueue0(s) && Elapsed(s) + 1 < BOOST_INTERVAL
    ensures !Boosts(s, Timer) && s.cur.Some?
    ensures FromQueue0(Step(s, Timer)) && Step(s, Timer).cur.None? && Elapsed(Step(s, Timer)) == Elapsed(s) + 1
  {
    ElapsedNext(s);
    TickFromQueue0(s);
  }

  lemma UnchargedCost(s: State)
    requires Enabled(s, Uncharged) && FromQueue0(s) && Elapsed(s) < BOOST_INTERVAL
      && (s.cur.Some? ==> s.cur.value < |s.procs|)
    ensures FromQueue0(Step(s, Uncharged)) && Step(s, Uncharged).cur == s.cur
      && Elapsed(Step(s, Uncharged)) == Elapsed(s) + 1
  {
    ElapsedNext(s);
  }

  lemma ScheduleCost(s: State, p: nat, r: nat)
    requires Inv(s) && Enabled(s, Schedule) && Waiting(s, p, r) && Step(s, Schedule).cur != Some(p)
    ensures r > 0 && FromQueue0(Step(s, Schedule)) && Step(s, Schedule).cur.Some? && s.cur.None?
    ensures Elapsed(Step(s, Schedule)) == Elapsed(s)
  {
    NotTimer(s, Schedule);
    StepWaiting(s, Schedule, p, r);
    ScheduleQueues(s);
    HeadIsRunnable(s, 0);
    hide QueuesOf, BestTo;
  }

  lemma OthersKeepRunner(s: State, e: Event)
    requires Inv(s) && Enabled(s, e) && FromQueue0(s) && e != Timer && e != Schedule && e != Uncharged
    ensures FromQueue0(Step(s, e)) && Elapsed(Step(s, e)) == Elapsed(s)
      && (Step(s, e).cur == s.cur || Step(s, e).cur.None?)
  {
  }

  /**
   Right after a boost, with the hart idle, a process behind r others in queue 0
   is picked before the next boost, provided that r plus the timer interrupts
   that charge no one stays below 48: as long as p has not been picked, no boost
   comes and at most r others have been picked.
   */
  lemma {:induction false} PickedBeforeBoost(s: State, es: seq<Event>, p: nat, r: nat)
    requires Inv(s) && IsRun(s, es) && FromQueue0(s) && Waiting(s, p, r) && Cost(s, es, r) < BOOST_INTERVAL
    requires PassedOver(s, es, p)
    ensures NoBoost(s, es)
    ensures Count(es, Schedule) <= r && Waiting(Exec(s, es), p, r - Count(es, Schedule))
    decreases |es|
  {
    hide Inv, QueuesOf, Waiting, FromQueue0, Cost, Step, Boosts;
    if es != [] {
      var e := es[0];
      StepCost(s, es, p, r);
      StepInv(s, e);
      StepWaiting(s, e, p, r);
      PickedBeforeBoost(Step(s, e), es[1..], p, if e == Schedule then r - 1 else r);
    }
  }

  /** k picks, each followed by the tick that ends the runner's slice. */
  function Turns(k: nat): seq<Event> {
    if k == 0 then [] else [Schedule] + ([Timer] + Turns(k - 1))
  }

  /** u timer interrupts that charge no one, and then k turns. */
  function IdleThenTurns(u: nat, k: nat): seq<Event> {
    if u == 0 then Turns(k) else [Uncharged] + IdleThenTurns(u - 1, k)
  }

  /** With p behind others and the hart idle, the scheduler picks another process of queue 0. */
  lemma PicksAnother(s: State, p: nat, r: nat)
    requires Inv(s) && s.cur.None? && Waiting(s, p, r) && r > 0
    ensures Enabled(s, Schedule) && Step(s, Schedule).cur != Some(p)
  {
    BestIsHead(s);
    QueueOk(s.procs, s.counter, 0);
    hide Queue, BestTo, Inv;
    var q := QueuesOf(s)[0];
    assert First(QueuesOf(s)) == 0;
    assert q[0] != q[r];
  }

  lemma AfterPick(s: State, p: nat, r: nat)
    requires Inv(s) && s.cur.None? && Waiting(s, p, r) && r > 0
    ensures Enabled(s, Schedule) && Step(s, Schedule).cur != Some(p)
    ensures var t := Step(s, Schedule);
      Inv(t) && t.cur.Some? && t.cur.value < |t.procs| && FromQueue0(t) && Waiting(t, p, r - 1)
        && Elapsed(t) == Elapsed(s)
  {
    hide QueuesOf, Waiting, FromQueue0, Elapsed, Step, Boosts;
    PicksAnother(s, p, r);
    NotTimer(s, Schedule);
    ScheduleCost(s, p, r);
    StepWaiting(s, Schedule, p, r);
    StepInv(s, Schedule);
  }

  /** The tick after a pick either boosts or ends the turn with p one place further forward. */
  lemma AfterTurn(s: State, p: nat, r: nat)
    requires Inv(s) && s.cur.Some? && FromQueue0(s) && Waiting(s, p, r) && Elapsed(s) < BOOST_INTERVAL
    ensures Boosts(s, Timer) <==> Elapsed(s) + 1 == BOOST_INTERVAL
    ensures var t := Step(s, Timer);
      !Boosts(s, Timer) ==> Inv(t) && t.cur.None? && Waiting(t, p, r) && Elapsed(t) == Elapsed(s) + 1
  {
    ElapsedNext(s);
    StepInv(s, Timer);
    hide QueuesOf, Waiting, Step;
    if Elapsed(s) + 1 < BOOST_INTERVAL {
      TimerCost(s);
      StepWaiting(s, Timer, p, r);
    }
  }

  lemma {:induction false} TurnsReachBoost(s: State, p: nat, r: nat, k: nat)
    requires Inv(s) && s.cur.None? && Waiting(s, p, r) && 0 < k <= r && Elapsed(s) + k == BOOST_INTERVAL
    ensures IsRun(s, Turns(k)) && PassedOver(s, Turns(k), p) && !NoBoost(s, Turns(k))
    ensures Count(Turns(k), Uncharged) == 0
    decreases k
  {
    hide Inv, QueuesOf, Waiting, FromQueue0, Elapsed, Step, Boosts;
    ElapsedPositive(s);
    AfterPick(s, p, r);
    var t, es := Step(s, Schedule), [Timer] + Turns(k - 1);
    AfterTurn(t, p, r - 1);
    var u := Step(t, Timer);
    assert Turns(k)[1..] == es && es[1..] == Turns(k - 1);
    if k > 1 {
      TurnsReachBoost(u, p, r - 1, k - 1);
    } else {
      assert Turns(0) == [];
    }
    TimerRun(t, Turns(k - 1), p);
  }

  lemma TimerRun(t: State, es: seq<Event>, p: nat)
    requires t.cur.Some? && t.cur.value < |t.procs| && IsRun(Step(t, Timer), es) && PassedOver(Step(t, Timer), es, p)
    ensures IsRun(t, [Timer] + es) && PassedOver(t, [Timer] + es, p)
    ensures NoBoost(t, [Timer] + es) <==> !Boosts(t, Timer) && NoBoost(Step(t, Timer), es)
    ensures Count([Timer] + es, Uncharged) == Count(es, Uncharged)
  {
    assert ([Timer] + es)[1..] == es;
  }

  lemma {:induction false} IdleReachesBoost(s: State, p: nat, r: nat, u: nat, k: nat)
    requires Inv(s) && s.cur.None? && Waiting(s, p, r) && 0 < k <= r && Elapsed(s) + u + k == BOOST_INTERVAL
    ensures var es := IdleThenTurns(u, k);
      IsRun(s, es) && PassedOver(s, es, p) && !NoBoost(s, es) && Count(es, Uncharged) == u
    decreases u
  {
    hide Inv, QueuesOf, Waiting, Elapsed, Boosts, Turns;
    if u == 0 {
      TurnsReachBoost(s, p, r, k);
    } else {
      ElapsedPositive(s);
      NotTimer(s, Uncharged);
      IdleStep(s, p, r);
      IdleReachesBoost(Step(s, Uncharged), p, r, u - 1, k);
      assert IdleThenTurns(u, k)[1..] == IdleThenTurns(u - 1, k);
    }
  }

  lemma IdleStep(s: State, p: nat, r: nat)
    requires Inv(s) && s.cur.None? && Waiting(s, p, r) && Elapsed(s) < BOOST_INTERVAL
    ensures var t := Step(s, Uncharged);
      Inv(t) && t.cur.None? && Waiting(t, p, r) && Elapsed(t) == Elapsed(s) + 1
  {
    ElapsedNext(s);
    NotTimer(s, Uncharged);
    StepWaiting(s, Uncharged, p, r);
    StepInv(s, Uncharged);
  }

  /**
   The bound of PickedBeforeBoost is exact. From every state with the hart idle
   and no tick elapsed, 48 - r timer interrupts that charge no one and r turns of
   others boost before p, behind r others, is picked; behind 48 or more, 48 turns
   do so with every interrupt charged.
   */
  lemma BoostComesFirst(s: State, p: nat, r: nat) returns (es: seq<Event>)
    requires Inv(s) && s.cur.None? && Elapsed(s) == 0 && Waiting(s, p, r) && r > 0
    ensures IsRun(s, es) && PassedOver(s, es, p) && !NoBoost(s, es)
    ensures Count(es, Uncharged) == if r < BOOST_INTERVAL then BOOST_INTERVAL - r else 0
  {
    var k := if r < BOOST_INTERVAL then r else BOOST_INTERVAL;
    es := IdleThenTurns(BOOST_INTERVAL - k, k);
    IdleReachesBoost(s, p, r, BOOST_INTERVAL - k, k);
  }

  /** The head of queue 0 is the next process to be picked, so no boost comes before that. */
  lemma {:induction false} HeadIsNext(s: State, es: seq<Event>, p: nat)
    requires Inv(s) && IsRun(s, es) && s.cur.None? && Waiting(s, p, 0) && PassedOver(s, es, p)
    ensures NoBoost(s, es)
    decreases |es|
  {
    if es != [] {
      var e := es[0];
      HeadStep(s, e, p);
      HeadIsNext(Step(s, e), es[1..], p);
    }
  }

  lemma HeadStep(s: State, e: Event, p: nat)
    requires Inv(s) && Enabled(s, e) && s.cur.None? && Waiting(s, p, 0)
    requires e == Schedule ==> Step(s, e).cur != Some(p)
    ensures !Boosts(s, e) && Inv(Step(s, e)) && Step(s, e).cur.None? && Waiting(Step(s, e), p, 0)
  {
    hide Inv, QueuesOf, Waiting;
    NotTimer(s, e);
    StepInv(s, e);
    StepWaiting(s, e, p, 0);
  }

  /**
   Just after a boost, p behind r others is picked before the next one in every
   run with at most u uncharged timer interrupts if and only if r is 0 or r + u
   is below 48.
   */
  lemma PickedBeforeBoostIff(s: State, p: nat, r: nat, u: nat)
    requires Inv(s) && s.cur.None? && Elapsed(s) == 0 && Waiting(s, p, r)
    ensures r == 0 || r + u < BOOST_INTERVAL <==>
      forall es :: IsRun(s, es) && PassedOver(s, es, p) && Count(es, Uncharged) <= u ==> NoBoost(s, es)
  {
    if r == 0 || r + u < BOOST_INTERVAL {
      forall es | IsRun(s, es) && PassedOver(s, es, p) && Count(es, Uncharged) <= u ensures NoBoost(s, es) {
        if r == 0 {
          HeadIsNext(s, es, p);
        } else {
          PickedBeforeBoost(s, es, p, r);
        }
      }
    } else {
      var es := BoostComesFirst(s, p, r);
    }
  }

  lemma {:induction false} RunThen(s: State, es: seq<Event>, e: Event)
    requires Inv(s) && IsRun(s, es) && Enabled(Exec(s, es), e)
    ensures Inv(Exec(s, es)) && IsRun(s, es + [e]) && Exec(s, es + [e]) == Step(Exec(s, es), e)
    decreases |es|
  {
    hide Inv, Step, Enabled;
    InvAnyTicks(s, s.ticks);
    if es == [] {
      assert [e][1..] == [];
    } else {
      StepInv(s, es[0]);
      RunThen(Step(s, es[0]), es[1..], e);
      assert (es + [e])[1..] == es[1..] + [e];
    }
  }

  /** The hart is idle, no tick has elapsed, and processes 0 to n - 1 stand in queue 0 in this order. */
  ghost predicate Crowded(s: State, n: nat) {
    && Inv(s) && s.cur.None? && Elapsed(s) == 0
    && |QueuesOf(s)[0]| == n && (forall r: nat :: r < n ==> Waiting(s, r, r))
    && forall i :: n <= i < NPROC ==> s.procs[i].state == UNUSED
  }

  /** The states BoostComesFirst starts from are reachable, with any number of processes in queue 0. */
  lemma {:induction false} Crowd(n: nat) returns (es: seq<Event>)
    requires n <= NPROC
    ensures IsRun(Init(), es) && Crowded(Exec(Init(), es), n)
    decreases n
  {
    hide Inv, Step, Enabled, Crowded, Init;
    StartsEmpty();
    if n == 0 {
      es := [];
    } else {
      var early := Crowd(n - 1);
      CrowdStep(Exec(Init(), early), n - 1);
      RunThen(Init(), early, Alloc(n - 1));
      var middle := early + [Alloc(n - 1)];
      RunThen(Init(), middle, Start(n - 1));
      es := middle + [Start(n - 1)];
    }
  }

  lemma StartsEmpty()
    ensures Inv(Init()) && Crowded(Init(), 0)
  {
    hide QueuesOf, Inv;
    InitInv();
    NoneQueued(Init());
  }

  lemma NoneQueued(s: State)
    requires Inv(s) && forall i :: 0 <= i < NPROC ==> s.procs[i].state == UNUSED
    ensures QueuesOf(s)[0] == []
  {
    QueueOk(s.procs, s.counter, 0);
    HasHead(QueuesOf(s)[0]);
  }

  lemma CrowdStep(s: State, n: nat)
    requires Crowded(s, n) && n < NPROC
    ensures Enabled(s, Alloc(n)) && Enabled(Step(s, Alloc(n)), Start(n))
    ensures Crowded(Step(Step(s, Alloc(n)), Start(n)), n + 1)
  {
    StepInv(s, Alloc(n));
    RefinesQueues(s, Alloc(n));
    StepInv(Step(s, Alloc(n)), Start(n));
    RefinesQueues(Step(s, Alloc(n)), Start(n));
    var t := Step(Step(s, Alloc(n)), Start(n));
    InvAnyTicks(s, s.ticks);
    InvAnyTicks(t, t.ticks);
    hide QueuesOf, Inv;
    assert QueuesOf(t)[0] == QueuesOf(s)[0] + [n];
    forall r: nat | r < n + 1 ensures Waiting(t, r, r) {
      if r < n {
        assert Waiting(s, r, r);
      }
    }
  }

  /** A tick that boosts leaves the hart idle with no tick elapsed, so PickedBeforeBoost applies from there. */
  lemma AfterBoost(s: State)
    requires Inv(s) && s.cur.Some? && Boosts(s, Timer)
    ensures Tick(s).cur.None? && Elapsed(Tick(s)) == 0 && FromQueue0(Tick(s))
    ensures forall es, r: nat :: Cost(Tick(s), es, r) == r + Count(es, Uncharged)
    ensures QueuesOf(Tick(s))[0] == Runnables(s.procs, NPROC)
  {
    AfterBoostHart(s);
    AfterBoostQueues(s);
    hide QueuesOf, Tick;
  }

  lemma AfterBoostHart(s: State)
    requires Inv(s) && s.cur.Some? && Boosts(s, Timer)
    ensures Tick(s).cur.None? && Elapsed(Tick(s)) == 0
  {
    InvAnyTicks(s, (s.ticks + 1) % WRAP);
    var t := s.(ticks := (s.ticks + 1) % WRAP);
    BoostExhausts(t);
    hide Inv, Outranked;
    BoostClock(t, |t.procs|);
  }

  lemma BoostClock(s: State, n: nat)
    requires n <= |s.procs|
    ensures BoostTo(s.(lastBoost := s.ticks), n).ticks == BoostTo(s.(lastBoost := s.ticks), n).lastBoost
  {
    if n > 0 { BoostClock(s, n - 1); }
  }

  lemma AfterBoostQueues(s: State)
    requires Inv(s) && s.cur.Some? && Boosts(s, Timer)
    ensures QueuesOf(Tick(s))[0] == Runnables(s.procs, NPROC)
  {
    RefinesQueues(s, Timer);
    hide QueuesOf, Tick, Inv;
  }

  /** After a tick, and the scheduler's pick if the tick gave up the hart, no one waiting outranks the runner. */
  lemma NoOneOutranksRunner(s: State)
    requires Inv(s) && s.cur.Some?
    ensures var t := if Tick(s).cur.Some? then Tick(s) else Dispatch(Tick(s));
      t.cur.Some? && t.cur.value < NPROC && !Outranked(t.procs, t.procs[t.cur.value].prio)
  {
    TickInv(s);
    TickKeepsOrYields(s);
    var t := Tick(s);
    if t.cur.None? {
      BestIsLeast(t.procs, NPROC);
    }
  }

  lemma TickKeepsOrYields(s: State)
    requires Inv(s) && s.cur.Some?
    ensures var t, p := Tick(s), s.cur.value;
      && p < |t.procs|
      && (t.cur.None? ==> t.procs[p].state == RUNNABLE)
      && (t.cur.Some? ==> t.cur.value == p && !Outranked(t.procs, t.procs[p].prio))
  {
    hide Inv, Mostly, MaybeBoost, Charge, Outranked;
    InvAnyTicks(s, (s.ticks + 1) % WRAP);
    var t := s.(ticks := (s.ticks + 1) % WRAP);
    MaybeBoostInv(t);
    ChargeInv(MaybeBoost(t), s.cur.value);
  }
}
