/** The scheduler's code: fields changed in place, loops over the process table. */
module MlfqCode {
  import opened Wrappers
  import opened Mlfq
  import opened MlfqFifo

  /** t follows s as e leads from one machine of queues to the next. */
  ghost predicate FifoRefined(s: State, e: Event, t: State) {
    && FifoOk(Abs(s)) && (e.Sleep? || e.Exit? || e.Timer? ==> Abs(s).run.Some?)
    && (e.Alloc? || e.Start? || e.Wake? || e.Reap? ==> e.p < NPROC)
    && Abs(t) == FifoStep(Abs(s), e)
  }

  lemma TimerOnQueues(s: State)
    requires s.cur.Some? && s.cur.value < |s.procs|
    ensures Inv(s) ==> FifoRefined(s, Timer, Tick(s))
  {
    if Inv(s) {
      TimerRefines(s);
    }
  }

  lemma PickOnQueues(s: State)
    requires s.cur.None?
    ensures Inv(s) && BestTo(s.procs, |s.procs|).Some? ==> FifoRefined(s, Schedule, Dispatch(s))
  {
    if Inv(s) && BestTo(s.procs, |s.procs|).Some? {
      ScheduleRefines(s);
    }
  }

  class Hart {
    var procs: seq<Proc>
    var counter: nat
    var ticks: nat
    var lastBoost: nat
    var cur: Option<nat>

    ghost function St(): State
      reads this
    {
      State(procs, counter, ticks, lastBoost, cur)
    }

    /** procinit. */
    constructor ()
      ensures St() == Init()
    {
      procs := seq(NPROC, i => Proc(UNUSED, 0, 0, 0));
      counter, ticks, lastBoost, cur := 1, 0, 0, None;
    }

    /** mlfq_next_seq. */
    method NextSeq() returns (v: nat)
      modifies this`counter
      ensures v == old(counter) && counter == v + 1
    {
      v := counter;
      counter := counter + 1;
    }

    /** mlfq_enqueue. */
    method EnqueueProc(p: nat)
      requires p < |procs|
      modifies this`procs, this`counter
      ensures St() == Enqueue(old(St()), p)
    {
      procs := procs[p := procs[p].(used := 0)];
      var v := NextSeq();
      procs := procs[p := procs[p].(qtime := v)];
    }

    /** mlfq_boost_all. */
    method BoostAll()
      modifies this`procs, this`counter
      ensures St() == BoostTo(old(St()), |old(procs)|)
    {
      ghost var s := St();
      for p := 0 to |procs|
        invariant |procs| == |s.procs| && St() == BoostTo(s, p)
      {
        if procs[p].state != UNUSED {
          procs := procs[p := procs[p].(prio := 0)];
          EnqueueProc(p);
        }
      }
    }

    /** mlfq_maybe_boost. */
    method MaybeBoostNow()
      modifies this`procs, this`counter, this`lastBoost
      ensures St() == MaybeBoost(old(St()))
    {
      var now := ticks;
      if (now - lastBoost) % WRAP >= BOOST_INTERVAL {
        lastBoost := now;
        BoostAll();
      }
    }

    /** mlfq_higher_priority_exists. */
    method HigherPriorityExists(prio: nat) returns (hit: bool)
      ensures hit <==> Outranked(procs, prio)
    {
      for q := 0 to |procs|
        invariant forall i :: 0 <= i < q ==> !(procs[i].state == RUNNABLE && procs[i].prio < prio)
      {
        if procs[q].state == RUNNABLE && procs[q].prio < prio {
          return true;
        }
      }
      return false;
    }

    /** The timer interrupt on a running process: clockintr, then mlfq_tick. */
    method TimerInterrupt()
      requires cur.Some? && cur.value < |procs|
      modifies this
      ensures St() == Tick(old(St()))
      ensures old(Inv(St())) ==> FifoRefined(old(St()), Timer, St())
    {
      hide Enqueue, MaybeBoost, Outranked, Charge, Exhausts;
      var p := cur.value;
      ticks := (ticks + 1) % WRAP;
      MaybeBoostNow();
      var needYield := ChargeTick(p);
      if !needYield {
        needYield := HigherPriorityExists(procs[p].prio);
      }
      if needYield {
        procs := procs[p := procs[p].(state := RUNNABLE)];
        cur := None;
      }
      TimerOnQueues(old(St()));
    }

    /** mlfq_tick's accounting: whether the slice is used up. */
    method ChargeTick(p: nat) returns (needYield: bool)
      requires p < |procs|
      modifies this`procs, this`counter
      ensures St() == Charge(old(St()), p) && (needYield <==> Exhausts(old(procs)[p]))
    {
      needYield := false;
      procs := procs[p := procs[p].(used := procs[p].used + 1)];
      if procs[p].used >= Slice(procs[p].prio) {
        if procs[p].prio < LEVELS - 1 {
          procs := procs[p := procs[p].(prio := procs[p].prio + 1)];
        }
        EnqueueProc(p);
        needYield := true;
      }
    }

    /** scheduler's scan and switch. */
    method Pick() returns (found: bool)
      requires cur.None?
      modifies this`procs, this`cur
      ensures St() == Dispatch(old(St()))
      ensures old(Inv(St())) && found ==> FifoRefined(old(St()), Schedule, St())
      ensures found <==> BestTo(old(procs), |old(procs)|).Some?
    {
      var best: Option<nat>, bestPrio, bestQtime := None, LEVELS, 0;
      for p := 0 to |procs|
        invariant best == BestTo(procs, p)
        invariant best.Some? ==>
          best.value < |procs| && bestPrio == procs[best.value].prio && bestQtime == procs[best.value].qtime
      {
        if procs[p].state == RUNNABLE {
          if best.None? || procs[p].prio < bestPrio || (procs[p].prio == bestPrio && procs[p].qtime < bestQtime) {
            best, bestPrio, bestQtime := Some(p), procs[p].prio, procs[p].qtime;
          }
        }
      }
      if best.Some? {
        procs := procs[best.value := procs[best.value].(state := RUNNING)];
        cur := best;
      }
      found := best.Some?;
      PickOnQueues(old(St()));
    }
  }
}
