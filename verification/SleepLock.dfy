/**
 acquiresleep and releasesleep (sleeplock.c) over sleep_prepare, sleep and
 wakeup (proc.c), by any number of processes.  A step is one section under a
 spin lock; wakeup visits the table one process at a time.
 */
module SleepLock {
  import opened Wrappers

  datatype Pc =
    | Outside        // does not want the lock
    | Entering       // in acquiresleep, waiting for lk->lk
    | Testing        // holds lk->lk, before the test of lk->locked
    | Prepared       // holds lk->lk, sleep_prepare done
    | Drifting       // has released lk->lk, sleep() has not taken p->lock yet
    | Asleep         // SLEEPING
    | Taking         // holds lk->lk, has set lk->locked
    | Owner          // holds the sleep lock
    | Leaving        // in releasesleep, waiting for lk->lk
    | Waking(i: nat) // holds lk->lk, has cleared lk->locked; wakeup is at slot i

  /**
   chan[p]: p->chan is this lock.  missed[p]: a wakeup on it has reached p
   since p's last sleep_prepare.  spin: who is inside lk->lk.
   */
  datatype State = State(pcs: seq<Pc>, chan: seq<bool>, missed: seq<bool>, locked: bool, pid: Option<nat>,
                         spin: Option<nat>)

  /**
   Run(p): p's next section.  Kill(p): kkill wakes p without touching p->chan.
   Register(p): p, not waiting here, calls sleep_prepare on some other channel.
   */
  datatype Event = Run(p: nat) | Kill(p: nat) | Register(p: nat)

  predicate Enabled(s: State, e: Event) {
    && |s.chan| == |s.missed| == |s.pcs| && e.p < |s.pcs|
    && match e
       case Kill(p) => s.pcs[p].Asleep?
       case Register(p) => s.pcs[p].Outside? || s.pcs[p].Owner?
       case Run(p) => !s.pcs[p].Asleep? && (s.pcs[p].Entering? || s.pcs[p].Leaving? ==> s.spin.None?)
  }

  function Move(s: State, p: nat, pc: Pc): State
    requires p < |s.pcs|
  {
    s.(pcs := s.pcs[p := pc])
  }

  /** wakeup's visit of process i, under its p->lock. */
  function Visit(s: State, i: nat): State
    requires i < |s.pcs| && |s.chan| == |s.missed| == |s.pcs|
  {
    if !s.chan[i] then s else
      var t := s.(chan := s.chan[i := false], missed := s.missed[i := true]);
      if s.pcs[i].Asleep? then Move(t, i, Entering) else t
  }

  /** The section of p between two points where it holds no lock, or one visit of its wakeup. */
  function Section(s: State, p: nat): State
    requires Enabled(s, Run(p))
  {
    match s.pcs[p]
    case Outside => Move(s, p, Entering)
    case Entering => Move(s.(spin := Some(p)), p, Testing)
    case Testing =>
      if s.locked then Move(s.(chan := s.chan[p := true], missed := s.missed[p := false]), p, Prepared)
      else Move(s.(locked := true, pid := Some(p)), p, Taking)
    case Prepared => Move(s.(spin := None), p, Drifting)
    case Drifting => if s.chan[p] then Move(s, p, Asleep) else Move(s, p, Entering)
    case Asleep => s
    case Taking => Move(s.(spin := None), p, Owner)
    case Owner => Move(s, p, Leaving)
    case Leaving => Move(s.(spin := Some(p), locked := false, pid := None), p, Waking(0))
    case Waking(i) =>
      if i < |s.pcs| then Move(Visit(s, i), p, Waking(i + 1))
      else Move(s.(spin := None), p, Outside)
  }

  function Step(s: State, e: Event): State
    requires Enabled(s, e)
  {
    match e
    case Kill(p) => Move(s, p, Entering)
    case Register(p) => s.(chan := s.chan[p := false])
    case Run(p) => Section(s, p)
  }

  predicate InSpin(pc: Pc) { pc.Testing? || pc.Prepared? || pc.Taking? || pc.Waking? }

  predicate Holds(pc: Pc) { pc.Taking? || pc.Owner? || pc.Leaving? }

  /** The spin lock is held by the process whose code is inside it. */
  ghost predicate SpinOk(s: State) {
    forall i :: 0 <= i < |s.pcs| ==> (InSpin(s.pcs[i]) <==> s.spin == Some(i))
  }

  /** lk->locked says whether someone holds the sleep lock, and lk->pid who: at most one does. */
  ghost predicate Exclusive(s: State) {
    && (forall i :: 0 <= i < |s.pcs| ==> (Holds(s.pcs[i]) <==> s.pid == Some(i)))
    && (s.locked <==> s.pid.Some?)
    && (s.pid.Some? ==> s.pid.value < |s.pcs|)
  }

  /** A process on its way to sleep has seen no wakeup unless its registration is gone. */
  ghost predicate NoLostWakeup(s: State) {
    && |s.chan| == |s.missed| == |s.pcs|
    && (forall i :: 0 <= i < |s.pcs| && s.pcs[i].Asleep? ==> s.chan[i] && !s.missed[i])
    && (forall i :: 0 <= i < |s.pcs| && s.chan[i] ==> !s.missed[i])
  }

  /** Registered on a free lock only while the releaser's wakeup is still on its way. */
  ghost predicate WaitersOk(s: State) {
    && |s.chan| == |s.missed| == |s.pcs|
    && (s.spin.Some? ==> s.spin.value < |s.pcs|)
    && (forall i :: 0 <= i < |s.pcs| && s.chan[i] ==>
          s.locked || (s.spin.Some? && s.pcs[s.spin.value].Waking? && s.pcs[s.spin.value].i <= i))
  }

  ghost predicate Inv(s: State) {
    SpinOk(s) && Exclusive(s) && WaitersOk(s) && NoLostWakeup(s)
  }

  lemma VisitFacts(s: State, i: nat)
    requires Inv(s) && i < |s.pcs|
    requires s.spin.Some? && s.pcs[s.spin.value] == Waking(i)
    ensures var t := Visit(s, i);
      && SpinOk(t) && Exclusive(t) && NoLostWakeup(t) && t.spin == s.spin && t.locked == s.locked && t.pid == s.pid
      && |t.pcs| == |s.pcs| && t.pcs[t.spin.value] == Waking(i)
      && (forall j :: 0 <= j < |t.pcs| && t.chan[j] ==> s.chan[j] && j != i)
  {
  }

  lemma VisitInv(s: State, p: nat)
    requires Inv(s) && Enabled(s, Run(p)) && s.pcs[p].Waking? && s.pcs[p].i < |s.pcs|
    ensures Inv(Section(s, p))
  {
    VisitFacts(s, s.pcs[p].i);
  }

  predicate Waits(pc: Pc) { pc.Entering? || pc.Testing? || pc.Prepared? || pc.Drifting? }

  lemma WaitInv(s: State, p: nat)
    requires Inv(s) && Enabled(s, Run(p)) && Waits(s.pcs[p])
    ensures Inv(Section(s, p))
  {
    hide Section;
    match s.pcs[p]
    case Entering => EnterInv(s, p);
    case Testing => TestInv(s, p);
    case Prepared => DriftInv(s, p);
    case Drifting => DriftInv(s, p);
  }

  lemma EnterInv(s: State, p: nat)
    requires Inv(s) && Enabled(s, Run(p)) && s.pcs[p].Entering?
    ensures Inv(Section(s, p))
  {
  }

  lemma TestInv(s: State, p: nat)
    requires Inv(s) && Enabled(s, Run(p)) && s.pcs[p].Testing?
    ensures Inv(Section(s, p))
  {
  }

  lemma DriftInv(s: State, p: nat)
    requires Inv(s) && Enabled(s, Run(p)) && (s.pcs[p].Prepared? || s.pcs[p].Drifting?)
    ensures Inv(Section(s, p))
  {
  }

  lemma HoldInv(s: State, p: nat)
    requires Inv(s) && Enabled(s, Run(p)) && !Waits(s.pcs[p]) && !s.pcs[p].Waking?
    ensures Inv(Section(s, p))
  {
  }

  /** Every step of every interleaving keeps the invariant. */
  lemma StepInv(s: State, e: Event)
    requires Inv(s) && Enabled(s, e)
    ensures Inv(Step(s, e))
  {
    if e.Run? {
      if s.pcs[e.p].Waking? && s.pcs[e.p].i < |s.pcs| { VisitInv(s, e.p); }
      else if Waits(s.pcs[e.p]) { WaitInv(s, e.p); }
      else if !s.pcs[e.p].Waking? { HoldInv(s, e.p); }
    }
  }

  function Init(n: nat): State {
    State(seq(n, i => Outside), seq(n, i => false), seq(n, i => false), false, None, None)
  }

  ghost predicate IsRun(s: State, es: seq<Event>)
    decreases |es|
  {
    es != [] ==> Enabled(s, es[0]) && IsRun(Step(s, es[0]), es[1..])
  }

  ghost function Exec(s: State, es: seq<Event>): State
    requires IsRun(s, es)
    decreases |es|
  {
    if es == [] then s else Exec(Step(s, es[0]), es[1..])
  }

  lemma {:induction false} RunInv(s: State, es: seq<Event>)
    requires Inv(s) && IsRun(s, es)
    ensures Inv(Exec(s, es))
    decreases |es|
  {
    if es != [] {
      StepInv(s, es[0]);
      RunInv(Step(s, es[0]), es[1..]);
    }
  }

  /** From the start, in every run: one holder, no lost wakeup, and no one asleep on a free lock. */
  lemma SafeInEveryRun(n: nat, es: seq<Event>)
    requires IsRun(Init(n), es)
    ensures var s := Exec(Init(n), es);
      && (forall i, j :: 0 <= i < j < |s.pcs| ==> !(Holds(s.pcs[i]) && Holds(s.pcs[j])))
      && (forall i :: 0 <= i < |s.pcs| && s.pcs[i].Asleep? ==> i < |s.missed| && !s.missed[i])
      && (s.spin.None? && !s.locked ==> forall i :: 0 <= i < |s.pcs| ==> !s.pcs[i].Asleep?)
      && (s.spin.None? ==> forall i :: 0 <= i < |s.chan| && s.chan[i] ==> s.locked)
  {
    RunInv(Init(n), es);
  }

  // What the two calls come to.

  predicate InAcquire(pc: Pc) {
    pc.Entering? || pc.Testing? || pc.Prepared? || pc.Drifting? || pc.Asleep? || pc.Taking?
  }

  predicate InRelease(pc: Pc) { pc.Leaving? || pc.Waking? }

  /**
   acquiresleep ends only with the lock, and by no one else's doing; with the
   lock free it takes it, else it registers.
   */
  lemma AcquireEnds(s: State, e: Event, p: nat)
    requires Inv(s) && Enabled(s, e) && p < |s.pcs| && InAcquire(s.pcs[p])
    ensures p < |Step(s, e).pcs|
    ensures !InAcquire(Step(s, e).pcs[p]) ==>
      e == Run(p) && Step(s, e).pcs[p].Owner? && Step(s, e).pid == Some(p) && Step(s, e).locked
    ensures e == Run(p) && s.pcs[p].Testing? && !s.locked ==> Step(s, e).pid == Some(p) && Step(s, e).locked
    ensures e == Run(p) && s.pcs[p].Testing? && s.locked ==> p < |Step(s, e).chan| && Step(s, e).chan[p]
    ensures e == Run(p) && s.pcs[p].Drifting? ==> (Step(s, e).pcs[p].Asleep? <==> s.chan[p])
  {
  }

  /** releasesleep frees the lock at once, and ends when its wakeup has visited every process. */
  lemma ReleaseEnds(s: State, e: Event, p: nat)
    requires Inv(s) && Enabled(s, e) && p < |s.pcs| && InRelease(s.pcs[p])
    ensures p < |Step(s, e).pcs|
    ensures !InRelease(Step(s, e).pcs[p]) ==>
      e == Run(p) && s.pcs[p] == Waking(s.pcs[p].i) && s.pcs[p].i >= |s.pcs| && Step(s, e).pcs[p].Outside?
    ensures e == Run(p) && s.pcs[p].Leaving? ==> !Step(s, e).locked && Step(s, e).pid.None?
  {
  }

  ghost predicate Leads(s: State, es: seq<Event>, t: State) { IsRun(s, es) && Exec(s, es) == t }

  lemma {:induction false} LeadsNext(s: State, es: seq<Event>, t: State, e: Event)
    requires Leads(s, es, t) && Enabled(t, e)
    ensures Leads(s, es + [e], Step(t, e))
    decreases |es|
  {
    hide Step, Enabled;
    if es == [] {
      assert [e][1..] == [] && es + [e] == [e];
      assert IsRun(Step(t, e), []) && Exec(Step(t, e), []) == Step(t, e);
      assert IsRun(s, [e]) && Exec(s, [e]) == Exec(Step(s, e), [e][1..]);
    } else {
      LeadsNext(Step(s, es[0]), es[1..], t, e);
      assert (es + [e])[1..] == es[1..] + [e];
    }
  }

  /** p takes n sections, if each is enabled. */
  ghost predicate CanRun(s: State, p: nat, n: nat)
    decreases n
  {
    n == 0 || (Enabled(s, Run(p)) && CanRun(Step(s, Run(p)), p, n - 1))
  }

  ghost function After(s: State, p: nat, n: nat): State
    requires CanRun(s, p, n)
    decreases n
  {
    if n == 0 then s else After(Step(s, Run(p)), p, n - 1)
  }

  lemma {:induction false} RunMany(s0: State, es: seq<Event>, s: State, p: nat, n: nat) returns (fs: seq<Event>)
    requires Leads(s0, es, s) && CanRun(s, p, n)
    ensures Leads(s0, fs, After(s, p, n))
    decreases n
  {
    hide Step, Enabled, Leads;
    if n == 0 {
      fs := es;
    } else {
      LeadsNext(s0, es, s, Run(p));
      fs := RunMany(s0, es + [Run(p)], Step(s, Run(p)), p, n - 1);
    }
  }

  /** q is awake and wants the lock, or is asleep and the wakeup at slot i will still reach it. */
  ghost predicate WillWake(s: State, q: nat, i: nat) {
    && |s.chan| == |s.missed| == |s.pcs| && q < |s.pcs|
    && (s.pcs[q].Entering? || (q >= i && s.pcs[q].Asleep? && s.chan[q]))
  }

  /** The visits of a wakeup, from slot i to the end. */
  lemma {:induction false} WakingRun(s: State, p: nat, i: nat, q: nat)
    requires p < |s.pcs| && s.pcs[p] == Waking(i) && i <= |s.pcs| && WillWake(s, q, i) && s.spin == Some(p)
    ensures CanRun(s, p, |s.pcs| - i + 1)
    ensures var t := After(s, p, |s.pcs| - i + 1);
      && |t.chan| == |t.missed| == |t.pcs| == |s.pcs| && q < |t.pcs| && t.pcs[q].Entering? && t.spin.None?
      && t.locked == s.locked
    decreases |s.pcs| - i
  {
    var t := Step(s, Run(p));
    if i < |s.pcs| {
      WakingRun(t, p, i + 1, q);
    }
  }

  /** Whoever sleeps on a held lock can get it: the holder's release wakes it, and it takes the lock. */
  lemma SleeperGetsLock(s: State, p: nat, q: nat) returns (es: seq<Event>)
    requires Inv(s) && p < |s.pcs| && q < |s.pcs| && s.pcs[p].Owner? && s.pcs[q].Asleep? && s.spin.None?
    ensures IsRun(s, es) && q < |Exec(s, es).pcs| && Exec(s, es).pcs[q].Owner? && Exec(s, es).pid == Some(q)
  {
    var s1 := Step(s, Run(p));
    var s2 := Step(s1, Run(p));
    LeadsNext(s, [], s, Run(p));
    LeadsNext(s, [] + [Run(p)], s1, Run(p));
    WakingRun(s2, p, 0, q);
    var n := |s.pcs| + 1;
    es := RunMany(s, [] + [Run(p)] + [Run(p)], s2, p, n);
    var t := After(s2, p, n);
    var t1 := Step(t, Run(q));
    var t2 := Step(t1, Run(q));
    LeadsNext(s, es, t, Run(q));
    LeadsNext(s, es + [Run(q)], t1, Run(q));
    LeadsNext(s, es + [Run(q)] + [Run(q)], t2, Run(q));
    es := es + [Run(q)] + [Run(q)] + [Run(q)];
  }

  /** A second process comes to sleep on the lock that the first one holds. */
  lemma SleepIsReached(n: nat) returns (es: seq<Event>)
    requires n >= 2
    ensures IsRun(Init(n), es)
    ensures var s := Exec(Init(n), es); |s.pcs| == n && s.pcs[0].Owner? && s.pcs[1].Asleep? && s.spin.None?
  {
    var fs := RunMany(Init(n), [], Init(n), 0, 4);
    var s := After(Init(n), 0, 4);
    es := RunMany(Init(n), fs, s, 1, 5);
  }
}
